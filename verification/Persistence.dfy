/** The durable run store of packages/runtime/src/persistence.ts: run snapshots, the
    evaluation queue and the signing queue, changed by single SQL statements or
    transactions that may interleave in any order. */
module Persistence {
  import opened Wrappers
  import opened Records
  import opened Hashing
  import opened EventChain
  import Q = JobQueue

  type Id = Q.Id

  datatype StoredRun = StoredRun(
    id: Id, state: PipelineState, events: seq<RunEvent>, cancelled: bool, cancelTokenHash: string,
    error: Option<string>, other: Json)

  /** A row of agenttrial_runs: two columns beside the snapshot. */
  datatype RunRow = RunRow(state: PipelineState, revision: nat, snapshot: StoredRun)

  type Runs = map<Id, RunRow>

  /** initial is the payload column of the evaluation jobs: the run as it was enqueued. */
  datatype State = State(now: int, runs: Runs, jobs: Q.Queue, signing: Q.Queue, initial: map<Id, StoredRun>)

  datatype Op =
    | Tick(millis: nat)
    | SaveRun(run: StoredRun)
    | SaveLeased(run: StoredRun, lease: Q.Lease)
    | EnqueueRun(run: StoredRun, maxQueued: int)
    | FailExhausted
    | ClaimRun(workerId: string, token: string, leaseMs: int, skipped: set<Id>, pick: Option<Id>)
    | RenewRun(lease: Q.Lease)
    | FinishRun(lease: Q.Lease, error: Option<string>)
    | CancelQueued(id: Id)
    | CancelDurably(id: Id, tokenHash: string, at: string)
    | StageSigning(run: StoredRun)
    | EnqueueSigning(id: Id)
    | ClaimSigning(workerId: string, token: string, leaseMs: int, skipped: set<Id>, pick: Option<Id>)
    | SaveSigned(run: StoredRun, lease: Q.Lease)
    | FinishSigning(lease: Q.Lease, error: Option<string>)

  const EXHAUSTED := "Evaluator job exhausted its retry budget after repeated worker lease loss"

  function Init(): State { State(0, map[], Q.Queue(map[], {}), Q.Queue(map[], {}), map[]) }

  // ---- Guards ----

  predicate Terminal(state: PipelineState) { state == COMPLETED || state == FAILED || state == CANCELLED }

  function RowFor(run: StoredRun): RunRow { RunRow(run.state, |run.events|, run) }

  predicate UnleasedApplies(runs: Runs, run: StoredRun) {
    run.id !in runs
    || (runs[run.id].revision <= |run.events| && (runs[run.id].state != CANCELLED || run.state == CANCELLED))
  }

  /** The worker's lease names its own job, as claimRun issued it for this run. */
  predicate LeasedApplies(s: State, run: StoredRun, lease: Q.Lease) {
    && run.id in s.runs && s.runs[run.id].revision <= |run.events|
    && Q.Current(s.jobs.rows, lease.(id := run.id), s.now)
  }

  predicate SignedApplies(s: State, run: StoredRun, lease: Q.Lease) {
    run.id in s.runs && Q.Current(s.signing.rows, lease.(id := run.id), s.now)
  }

  function Bounded(maxQueued: int): int {
    var atLeast := if maxQueued > 1 then maxQueued else 1;
    if atLeast < 1000 then atLeast else 1000
  }

  function Waiting(rows: map<Id, Q.Job>): nat { |set id | id in rows && Q.Live(rows, id)| }

  lemma WaitingIs(rows: map<Id, Q.Job>)
    ensures Waiting(rows) == |set id | id in rows && rows[id].status in {Q.Queued, Q.Running}|
  {
    assert (set id | id in rows && Q.Live(rows, id)) == set id | id in rows && rows[id].status in {Q.Queued, Q.Running};
  }

  predicate HasCapacity(s: State, maxQueued: int) { Waiting(s.jobs.rows) < Bounded(maxQueued) }

  predicate CancelApplies(s: State, id: Id, tokenHash: string) {
    id in s.runs && s.runs[id].snapshot.cancelTokenHash == tokenHash && !Terminal(s.runs[id].state)
  }

  // ---- Effects ----

  function CancelInput(at: string): EventInput {
    EventInput(at, CANCELLED, "run.cancelled", "Trial cancelled with the private cancellation capability", None)
  }

  function CancelledRun(h: Hasher, run: StoredRun, at: string): StoredRun {
    run.(cancelled := true, state := CANCELLED, events := run.events + [Sealed(h, run.events, CancelInput(at))])
  }

  /** The run with its cancellation mark, state and one more event, all else as before. */
  predicate CancelledFrom(before: StoredRun, at: string, run: StoredRun) {
    && var n := |before.events|;
    && |run.events| == n + 1 && run.events[..n] == before.events
    && run.events[n].base.rest ==
       map["at" := JString(at), "state" := JString("CANCELLED"), "type" := JString("run.cancelled"),
           "message" := JString("Trial cancelled with the private cancellation capability")]
    && run == before.(cancelled := true, state := CANCELLED, events := run.events)
  }

  lemma CancelledRunIs(h: Hasher, before: StoredRun, at: string)
    ensures CancelledFrom(before, at, CancelledRun(h, before, at))
  {
    hide EventId, Head;
  }

  /** state and snapshot.state become FAILED; the revision stays. */
  function FailedRow(row: RunRow): RunRow {
    row.(state := FAILED, snapshot := row.snapshot.(state := FAILED, error := Some(EXHAUSTED)))
  }

  function NextRuns(h: Hasher, s: State, op: Op): Runs {
    match op
    case SaveRun(run) => if UnleasedApplies(s.runs, run) then s.runs[run.id := RowFor(run)] else s.runs
    case SaveLeased(run, lease) => if LeasedApplies(s, run, lease) then s.runs[run.id := RowFor(run)] else s.runs
    case EnqueueRun(run, maxQueued) =>
      if HasCapacity(s, maxQueued) && run.id !in s.runs then s.runs[run.id := RowFor(run)] else s.runs
    case FailExhausted =>
      map id | id in s.runs ::
        if id in s.jobs.rows && Q.Exhausted(s.jobs.rows[id], s.now) then FailedRow(s.runs[id]) else s.runs[id]
    case CancelDurably(id, tokenHash, at) =>
      if CancelApplies(s, id, tokenHash) then s.runs[id := RowFor(CancelledRun(h, s.runs[id].snapshot, at))] else s.runs
    case StageSigning(run) => if run.id in s.runs then s.runs[run.id := RowFor(run)] else s.runs
    case SaveSigned(run, lease) => if SignedApplies(s, run, lease) then s.runs[run.id := RowFor(run)] else s.runs
    case _ => s.runs
  }

  function JobsOp(s: State, op: Op): Q.Op {
    match op
    case EnqueueRun(run, maxQueued) => if HasCapacity(s, maxQueued) then Q.Insert(run.id) else Q.Idle
    case FailExhausted => Q.FailExhausted(EXHAUSTED)
    case ClaimRun(workerId, token, leaseMs, skipped, pick) => Q.Claim(workerId, token, leaseMs, skipped, pick)
    case RenewRun(lease) => Q.Renew(lease)
    case FinishRun(lease, error) => Q.Finish(lease, error)
    case CancelQueued(id) => Q.Cancel(id)
    case CancelDurably(id, tokenHash, _) => if CancelApplies(s, id, tokenHash) then Q.Cancel(id) else Q.Idle
    case _ => Q.Idle
  }

  function SigningOp(s: State, op: Op): Q.Op {
    match op
    case EnqueueSigning(id) => if id in s.runs then Q.Insert(id) else Q.Idle
    case ClaimSigning(workerId, token, leaseMs, skipped, pick) => Q.Claim(workerId, token, leaseMs, skipped, pick)
    case FinishSigning(lease, error) => Q.Finish(lease, error)
    case CancelDurably(id, tokenHash, _) => if CancelApplies(s, id, tokenHash) then Q.Cancel(id) else Q.Idle
    case _ => Q.Idle
  }

  function NextInitial(s: State, op: Op): map<Id, StoredRun> {
    if op.EnqueueRun? && HasCapacity(s, op.maxQueued) && op.run.id !in s.jobs.rows then s.initial[op.run.id := op.run]
    else s.initial
  }

  function Next(h: Hasher, s: State, op: Op): State {
    State(if op.Tick? then s.now + op.millis else s.now, NextRuns(h, s, op),
          Q.Next(s.jobs, s.now, JobsOp(s, op)), Q.Next(s.signing, s.now, SigningOp(s, op)), NextInitial(s, op))
  }

  ghost predicate Allowed(s: State, op: Op) {
    Q.Allowed(s.jobs, s.now, JobsOp(s, op)) && Q.Allowed(s.signing, s.now, SigningOp(s, op))
  }

  // ---- The store that executes the statements ----

  class Store {
    var now: int
    var runs: Runs
    var initial: map<Id, StoredRun>
    const jobs: Q.Table
    const signing: Q.Table

    ghost predicate Valid() { jobs != signing }

    ghost function Contents(): State
      reads this, jobs, signing
    {
      State(now, runs, jobs.Contents(), signing.Contents(), initial)
    }

    constructor ()
      ensures Valid() && fresh(jobs) && fresh(signing) && Contents() == Init()
    {
      now, runs, initial := 0, map[], map[];
      jobs := new Q.Table();
      signing := new Q.Table();
    }

    method Tick(h: Hasher, millis: nat)
      requires Valid()
      modifies this
      ensures Contents() == Next(h, old(Contents()), Op.Tick(millis))
    {
      now := now + millis;
    }

    /** Leased: refused unless the lease is current. Unleased: silently skipped when it
        would lower the revision or leave CANCELLED. */
    method SaveRun(h: Hasher, run: StoredRun, lease: Option<Q.Lease>) returns (leaseLost: bool)
      requires Valid()
      modifies this
      ensures var op := if lease.Some? then SaveLeased(run, lease.value) else Op.SaveRun(run);
              Contents() == Next(h, old(Contents()), op)
      ensures leaseLost <==> lease.Some? && !LeasedApplies(old(Contents()), run, lease.value)
      ensures leaseLost ==> runs == old(runs)
      ensures !leaseLost ==>
                || runs == old(runs)[run.id := RunRow(run.state, |run.events|, run)]
                || (runs == old(runs) && lease.None? && run.id in runs
                    && (runs[run.id].revision > |run.events|
                        || (runs[run.id].state == CANCELLED && run.state != CANCELLED)))
    {
      var revision := |run.events|;
      if lease.Some? {
        if run.id !in runs || runs[run.id].revision > revision
           || !Q.Current(jobs.rows, lease.value.(id := run.id), now) { return true; }
        runs := runs[run.id := RunRow(run.state, revision, run)];
        return false;
      }
      if run.id !in runs || (runs[run.id].revision <= revision
                             && (runs[run.id].state != CANCELLED || run.state == CANCELLED)) {
        runs := runs[run.id := RunRow(run.state, revision, run)];
      }
      leaseLost := false;
    }

    method EnqueueRun(h: Hasher, run: StoredRun, maxQueued: int) returns (accepted: bool)
      requires Valid()
      modifies this, jobs
      ensures Contents() == Next(h, old(Contents()), Op.EnqueueRun(run, maxQueued))
      ensures accepted == HasCapacity(old(Contents()), maxQueued)
      ensures var live := set id | id in old(jobs.rows) && old(jobs.rows)[id].status in {Q.Queued, Q.Running};
              accepted <==> |live| == 0 || (|live| < maxQueued && |live| < 1000)
      ensures !accepted ==> runs == old(runs) && initial == old(initial)
      ensures accepted && run.id !in old(runs) ==> runs == old(runs)[run.id := RunRow(run.state, |run.events|, run)]
      ensures accepted && run.id in old(runs) ==> runs == old(runs)
    {
      accepted := Waiting(jobs.rows) < Bounded(maxQueued);
      WaitingIs(jobs.rows);
      if !accepted { return; }
      if run.id !in runs { runs := runs[run.id := RowFor(run)]; }
      if run.id !in jobs.rows { initial := initial[run.id := run]; }
      jobs.InsertJob(run.id, now);
    }

    method FailExhaustedJobs(h: Hasher)
      requires Valid()
      modifies this, jobs
      ensures Contents() == Next(h, old(Contents()), Op.FailExhausted)
    {
      var swept := jobs.SweepExhausted(EXHAUSTED, now);
      runs := map id | id in runs :: if id in swept then FailedRow(runs[id]) else runs[id];
    }

    /** The second statement of claimRun, which also returns the payload; the first is
        FailExhaustedJobs. */
    method ClaimRun(h: Hasher, workerId: string, token: string, leaseMs: int, skipped: set<Id>)
      returns (lease: Option<Q.Lease>, initialRun: Option<StoredRun>)
      requires Valid() && forall l :: l in jobs.issued ==> l.token != token
      modifies jobs
      ensures var picked := if lease.Some? then Some(lease.value.id) else None;
              var op := Op.ClaimRun(workerId, token, leaseMs, skipped, picked);
              Allowed(old(Contents()), op) && Contents() == Next(h, old(Contents()), op)
      ensures initialRun == if lease.Some? && lease.value.id in initial then Some(initial[lease.value.id]) else None
    {
      lease := jobs.ClaimJob(workerId, token, leaseMs, skipped, now);
      initialRun := if lease.Some? && lease.value.id in initial then Some(initial[lease.value.id]) else None;
    }

    method RenewRunLease(h: Hasher, lease: Q.Lease) returns (renewed: bool)
      requires Valid()
      modifies jobs
      ensures Contents() == Next(h, old(Contents()), RenewRun(lease))
              && renewed == Q.Current(old(jobs.rows), lease, now)
    {
      renewed := jobs.RenewLease(lease, now);
    }

    method FinishRunJob(h: Hasher, lease: Q.Lease, error: Option<string>) returns (finished: bool)
      requires Valid()
      modifies jobs
      ensures Contents() == Next(h, old(Contents()), FinishRun(lease, error))
              && finished == Q.Current(old(jobs.rows), lease, now)
    {
      finished := jobs.FinishJob(lease, error, now);
    }

    method CancelQueuedJob(h: Hasher, id: Id)
      requires Valid()
      modifies jobs
      ensures Contents() == Next(h, old(Contents()), CancelQueued(id))
    {
      jobs.CancelJob(id, now);
    }

    method CancelRunDurably(h: Hasher, id: Id, tokenHash: string, at: string) returns (cancelled: Option<StoredRun>)
      requires Valid()
      modifies this, jobs, signing
      ensures Contents() == Next(h, old(Contents()), CancelDurably(id, tokenHash, at))
      ensures cancelled.Some? <==> CancelApplies(old(Contents()), id, tokenHash)
      ensures cancelled.Some? <==> id in old(runs) && old(runs)[id].snapshot.cancelTokenHash == tokenHash
                                   && old(runs)[id].state !in {COMPLETED, FAILED, CANCELLED}
      ensures cancelled.None? ==> Contents() == old(Contents())
      ensures cancelled.Some? ==>
                && CancelledFrom(old(runs)[id].snapshot, at, cancelled.value)
                && runs == old(runs)[id := RunRow(CANCELLED, |old(runs)[id].snapshot.events| + 1, cancelled.value)]
    {
      hide CancelledFrom, Sealed;
      if id !in runs { return None; }
      var run := runs[id].snapshot;
      if run.cancelTokenHash != tokenHash || Terminal(runs[id].state) { return None; }
      var log := new EventLog(run.events);
      var _ := log.Append(h, CancelInput(at));
      run := run.(cancelled := true, state := CANCELLED, events := log.events);
      CancelledRunIs(h, runs[id].snapshot, at);
      jobs.CancelJob(id, now);
      signing.CancelJob(id, now);
      runs := runs[id := RunRow(CANCELLED, |run.events|, run)];
      cancelled := Some(run);
    }

    /** The first statement of enqueueSigningJob: an update without a guard. */
    method StageSigningJob(h: Hasher, run: StoredRun)
      requires Valid()
      modifies this
      ensures Contents() == Next(h, old(Contents()), StageSigning(run))
    {
      if run.id in runs { runs := runs[run.id := RunRow(run.state, |run.events|, run)]; }
    }

    /** The second statement of enqueueSigningJob. */
    method EnqueueSigningJob(h: Hasher, id: Id)
      requires Valid()
      modifies signing
      ensures Contents() == Next(h, old(Contents()), EnqueueSigning(id))
    {
      if id in runs { signing.InsertJob(id, now); }
    }

    method ClaimSigningJob(h: Hasher, workerId: string, token: string, leaseMs: int, skipped: set<Id>)
      returns (lease: Option<Q.Lease>)
      requires Valid() && forall l :: l in signing.issued ==> l.token != token
      modifies signing
      ensures var picked := if lease.Some? then Some(lease.value.id) else None;
              var op := Op.ClaimSigning(workerId, token, leaseMs, skipped, picked);
              Allowed(old(Contents()), op) && Contents() == Next(h, old(Contents()), op)
    {
      lease := signing.ClaimJob(workerId, token, leaseMs, skipped, now);
    }

    method SaveSignedRun(h: Hasher, run: StoredRun, lease: Q.Lease) returns (leaseLost: bool)
      requires Valid()
      modifies this
      ensures Contents() == Next(h, old(Contents()), SaveSigned(run, lease))
      ensures leaseLost <==> !SignedApplies(old(Contents()), run, lease)
    {
      leaseLost := run.id !in runs || !Q.Current(signing.rows, lease.(id := run.id), now);
      if !leaseLost { runs := runs[run.id := RunRow(run.state, |run.events|, run)]; }
    }

    method FinishSigningJob(h: Hasher, lease: Q.Lease, error: Option<string>) returns (finished: bool)
      requires Valid()
      modifies signing
      ensures Contents() == Next(h, old(Contents()), FinishSigning(lease, error))
      ensures finished == Q.Current(old(signing.rows), lease, now)
    {
      finished := signing.FinishJob(lease, error, now);
    }
  }

  // ---- Invariant of every reachable store ----

  ghost predicate RunsOk(runs: Runs) {
    forall id :: id in runs ==>
      runs[id].revision == |runs[id].snapshot.events| && runs[id].state == runs[id].snapshot.state
      && runs[id].snapshot.id == id
  }

  /** Each row's columns agree with its snapshot, both queues keep their protocol, no job
      exists without its run, and evaluation jobs have their payload. */
  ghost predicate Inv(s: State) {
    && RunsOk(s.runs) && Q.Inv(s.jobs) && Q.Inv(s.signing)
    && s.jobs.rows.Keys <= s.runs.Keys && s.signing.rows.Keys <= s.runs.Keys
    && s.initial.Keys == s.jobs.rows.Keys && forall id :: id in s.initial ==> s.initial[id].id == id
  }

  /** states[i] is the store before operation i. */
  ghost predicate Trace(h: Hasher, states: seq<State>, ops: seq<Op>) {
    && |states| == |ops| + 1
    && (forall i :: 0 <= i < |ops| ==> Allowed(states[i], ops[i]))
    && (forall i :: 0 <= i < |ops| ==> states[i + 1] == Next(h, states[i], ops[i]))
  }

  lemma RunsKept(h: Hasher, s: State, op: Op)
    requires RunsOk(s.runs)
    ensures RunsOk(NextRuns(h, s, op)) && s.runs.Keys <= NextRuns(h, s, op).Keys
  {}

  /** A queue's rows only grow, and only by the row that the operation inserts. */
  lemma QueueKeys(q: Q.Queue, now: int, op: Q.Op)
    requires Q.Allowed(q, now, op)
    ensures Q.Next(q, now, op).rows.Keys == q.rows.Keys + if op.Insert? then {op.id} else {}
  {}

  lemma KeysKept(h: Hasher, s: State, op: Op)
    requires Inv(s) && Allowed(s, op)
    ensures var t := Next(h, s, op);
            && t.jobs.rows.Keys <= t.runs.Keys && t.signing.rows.Keys <= t.runs.Keys
            && t.initial.Keys == t.jobs.rows.Keys && forall id :: id in t.initial ==> t.initial[id].id == id
  {
    hide Q.Next, Q.Allowed, Q.Inv, HasCapacity, NextRuns;
    QueueKeys(s.jobs, s.now, JobsOp(s, op));
    QueueKeys(s.signing, s.now, SigningOp(s, op));
    RunsKept(h, s, op);
    if op.EnqueueRun? && HasCapacity(s, op.maxQueued) { EnqueuedRunExists(h, s, op); }
  }

  lemma EnqueuedRunExists(h: Hasher, s: State, op: Op)
    requires op.EnqueueRun? && HasCapacity(s, op.maxQueued)
    ensures op.run.id in NextRuns(h, s, op)
  {}

  lemma StepKeepsInv(h: Hasher, s: State, op: Op)
    requires Inv(s) && Allowed(s, op)
    ensures Inv(Next(h, s, op))
  {
    hide NextRuns, JobsOp, SigningOp, NextInitial, RunsOk, Q.Next, Q.Inv, Q.Allowed;
    RunsKept(h, s, op);
    KeysKept(h, s, op);
    Q.StepKeepsInv(s.jobs, s.now, JobsOp(s, op));
    Q.StepKeepsInv(s.signing, s.now, SigningOp(s, op));
  }

  lemma {:induction false} TraceKeepsInv(h: Hasher, states: seq<State>, ops: seq<Op>, i: nat)
    requires Trace(h, states, ops) && Inv(states[0]) && i <= |ops|
    ensures Inv(states[i])
  {
    if i > 0 {
      TraceKeepsInv(h, states, ops, i - 1);
      StepKeepsInv(h, states[i - 1], ops[i - 1]);
    }
  }

  lemma InitHoldsInv()
    ensures Inv(Init())
  {}

  /** No step lowers a revision, except the two writes that carry no revision guard. */
  lemma RevisionNeverFalls(h: Hasher, s: State, op: Op, id: Id)
    requires Inv(s) && Allowed(s, op) && id in s.runs
    ensures id in Next(h, s, op).runs
    ensures !op.StageSigning? && !op.SaveSigned? ==> s.runs[id].revision <= Next(h, s, op).runs[id].revision
  {
    hide Q.Next, Q.Inv, Q.Allowed, Q.Current, Q.Exhausted, JobsOp, SigningOp, NextInitial, HasCapacity, Sealed;
  }

  // ---- How a run's row came to be as it is ----

  /** The lease's own row in this queue is running under its worker and token until later. */
  predicate Holding(rows: map<Id, Q.Job>, id: Id, lease: Q.Lease, now: int) {
    && id in rows && rows[id].status == Q.Running
    && rows[id].workerId == Some(lease.workerId) && rows[id].token == Some(lease.token)
    && rows[id].lockedUntil.Some? && now < rows[id].lockedUntil.value
  }

  /** The statement run on `s` that wrote this row. */
  predicate Explains(s: State, op: Op, id: Id, row: RunRow) {
    match op
    case SaveRun(run) =>
      && run.id == id && row == RunRow(run.state, |run.events|, run)
      && (id in s.runs ==>
            s.runs[id].revision <= |run.events| && (s.runs[id].state == CANCELLED ==> run.state == CANCELLED))
    case SaveLeased(run, lease) =>
      && run.id == id && row == RunRow(run.state, |run.events|, run)
      && id in s.runs && s.runs[id].revision <= |run.events| && Holding(s.jobs.rows, id, lease, s.now)
    case SaveSigned(run, lease) =>
      && run.id == id && row == RunRow(run.state, |run.events|, run)
      && id in s.runs && Holding(s.signing.rows, id, lease, s.now)
    case StageSigning(run) => run.id == id && row == RunRow(run.state, |run.events|, run) && id in s.runs
    case EnqueueRun(run, _) => run.id == id && row == RunRow(run.state, |run.events|, run) && id !in s.runs
    case CancelDurably(cancelled, tokenHash, _) =>
      && cancelled == id && id in s.runs && s.runs[id].snapshot.cancelTokenHash == tokenHash
      && s.runs[id].state !in {COMPLETED, FAILED, CANCELLED}
      && row.state == CANCELLED && row.revision == |s.runs[id].snapshot.events| + 1
      && CancelledFrom(s.runs[id].snapshot, op.at, row.snapshot)
    case FailExhausted =>
      && id in s.runs && id in s.jobs.rows && s.jobs.rows[id].status == Q.Running && s.jobs.rows[id].attempts >= 3
      && s.jobs.rows[id].lockedUntil.Some? && s.jobs.rows[id].lockedUntil.value < s.now
      && row.revision == s.runs[id].revision && row.state == FAILED
      && row.snapshot == s.runs[id].snapshot.(
         state := FAILED,
         error := Some("Evaluator job exhausted its retry budget after repeated worker lease loss"))
    case _ => false
  }

  lemma ExplainsStep(h: Hasher, s: State, op: Op, id: Id)
    requires id in NextRuns(h, s, op)
    ensures var row := NextRuns(h, s, op)[id];
            Explains(s, op, id, row) || (id in s.runs && s.runs[id] == row)
  {
    hide Sealed, HasCapacity, CancelledFrom;
    if op.CancelDurably? && id in s.runs { CancelledRunIs(h, s.runs[id].snapshot, op.at); }
  }

  /** From the empty store on, over every interleaving: each run's row is what one
      statement wrote that was entitled to - a cancellation only with the run's own token
      and before its end, a leased save only by the holder of the lease, a failure for lost
      leases only after the third ran out. */
  lemma {:induction false} EveryRowIsExplained(h: Hasher, states: seq<State>, ops: seq<Op>, i: nat, id: Id)
    requires Trace(h, states, ops) && states[0] == Init() && i <= |ops| && id in states[i].runs
    ensures exists k :: 0 <= k < i && Explains(states[k], ops[k], id, states[i].runs[id])
  {
    hide Explains, NextRuns, Allowed, JobsOp, SigningOp, NextInitial;
    if i > 0 {
      assert states[i].runs == NextRuns(h, states[i - 1], ops[i - 1]);
      ExplainsStep(h, states[i - 1], ops[i - 1], id);
      if !Explains(states[i - 1], ops[i - 1], id, states[i].runs[id]) {
        EveryRowIsExplained(h, states, ops, i - 1, id);
      }
    }
  }

  // ---- Leased writes over whole runs ----

  function JobQueues(states: seq<State>): (qs: seq<Q.Queue>)
    ensures |qs| == |states| && forall i :: 0 <= i < |qs| ==> qs[i] == states[i].jobs
  {
    if states == [] then [] else [states[0].jobs] + JobQueues(states[1..])
  }

  function SigningQueues(states: seq<State>): (qs: seq<Q.Queue>)
    ensures |qs| == |states| && forall i :: 0 <= i < |qs| ==> qs[i] == states[i].signing
  {
    if states == [] then [] else [states[0].signing] + SigningQueues(states[1..])
  }

  function Clocks(states: seq<State>): (ts: seq<int>)
    ensures |ts| == |states| && forall i :: 0 <= i < |ts| ==> ts[i] == states[i].now
  {
    if states == [] then [] else [states[0].now] + Clocks(states[1..])
  }

  function QueueOps(states: seq<State>, ops: seq<Op>, ofJobs: bool): (qops: seq<Q.Op>)
    requires |states| >= |ops|
    ensures |qops| == |ops|
    ensures forall i :: 0 <= i < |ops| ==>
              qops[i] == if ofJobs then JobsOp(states[i], ops[i]) else SigningOp(states[i], ops[i])
    decreases |ops|
  {
    if ops == [] then []
    else
      var first := if ofJobs then JobsOp(states[0], ops[0]) else SigningOp(states[0], ops[0]);
      [first] + QueueOps(states[1..], ops[1..], ofJobs)
  }

  lemma QueueSteps(h: Hasher, s: State, op: Op)
    ensures s.now <= Next(h, s, op).now
    ensures Next(h, s, op).jobs == Q.Next(s.jobs, s.now, JobsOp(s, op))
    ensures Next(h, s, op).signing == Q.Next(s.signing, s.now, SigningOp(s, op))
    ensures Allowed(s, op) <==> Q.Allowed(s.jobs, s.now, JobsOp(s, op)) && Q.Allowed(s.signing, s.now, SigningOp(s, op))
  {
    hide Q.Next, Q.Allowed, NextRuns, JobsOp, SigningOp, NextInitial;
  }

  /** Each queue, seen alone, goes through a trace of the lease protocol. */
  lemma QueuesFollowProtocol(h: Hasher, states: seq<State>, ops: seq<Op>)
    requires Trace(h, states, ops)
    ensures Q.Trace(JobQueues(states), Clocks(states), QueueOps(states, ops, true))
    ensures Q.Trace(SigningQueues(states), Clocks(states), QueueOps(states, ops, false))
  {
    hide Q.Next, Q.Allowed, Next, Allowed, JobsOp, SigningOp, JobQueues, SigningQueues, Clocks, QueueOps, Q.Trace;
    forall i | 0 <= i < |ops|
      ensures states[i].now <= states[i + 1].now
      ensures states[i + 1].jobs == Q.Next(states[i].jobs, states[i].now, JobsOp(states[i], ops[i]))
      ensures states[i + 1].signing == Q.Next(states[i].signing, states[i].now, SigningOp(states[i], ops[i]))
      ensures Q.Allowed(states[i].jobs, states[i].now, JobsOp(states[i], ops[i]))
      ensures Q.Allowed(states[i].signing, states[i].now, SigningOp(states[i], ops[i]))
    {
      assert Allowed(states[i], ops[i]) && states[i + 1] == Next(h, states[i], ops[i]);
      QueueSteps(h, states[i], ops[i]);
    }
    FollowsProtocol(JobQueues(states), Clocks(states), QueueOps(states, ops, true));
    FollowsProtocol(SigningQueues(states), Clocks(states), QueueOps(states, ops, false));
  }

  lemma FollowsProtocol(queues: seq<Q.Queue>, clocks: seq<int>, ops: seq<Q.Op>)
    requires |queues| == |ops| + 1 && |clocks| == |ops| + 1
    requires forall i :: 0 <= i < |ops| ==> clocks[i] <= clocks[i + 1]
    requires forall i :: 0 <= i < |ops| ==> Q.Allowed(queues[i], clocks[i], ops[i])
    requires forall i :: 0 <= i < |ops| ==> queues[i + 1] == Q.Next(queues[i], clocks[i], ops[i])
    ensures Q.Trace(queues, clocks, ops)
  {
    hide Q.Next, Q.Allowed;
  }

  lemma TraceLength(h: Hasher, states: seq<State>, ops: seq<Op>)
    requires Trace(h, states, ops)
    ensures |states| == |ops| + 1
  {}

  lemma InvOfQueues(s: State)
    requires Inv(s)
    ensures Q.Inv(s.jobs) && Q.Inv(s.signing)
  {}

  lemma LeasedMeansCurrent(s: State, run: StoredRun, l: Q.Lease)
    requires run.id == l.id
    ensures LeasedApplies(s, run, l) ==> Q.Current(s.jobs.rows, l, s.now)
  {}

  lemma SignedMeansCurrent(s: State, run: StoredRun, l: Q.Lease)
    requires run.id == l.id
    ensures SignedApplies(s, run, l) ==> Q.Current(s.signing.rows, l, s.now)
  {}

  /** Over every interleaving, successful leased snapshot writes of a run come in
      non-decreasing attempt order, and once a later attempt has written, no write under
      the earlier lease succeeds again. */
  lemma LeasedWritesFollowAttempts(h: Hasher, states: seq<State>, ops: seq<Op>, i: nat, j: nat, l: Q.Lease, m: Q.Lease)
    requires Trace(h, states, ops) && Inv(states[0]) && i < j < |ops|
    requires ops[i].SaveLeased? && ops[i].lease == l && ops[i].run.id == l.id && l in states[i].jobs.issued
    requires ops[j].SaveLeased? && ops[j].lease == m && ops[j].run.id == m.id && m in states[j].jobs.issued
    requires l.id == m.id && LeasedApplies(states[i], ops[i].run, l) && LeasedApplies(states[j], ops[j].run, m)
    ensures l.attempt <= m.attempt && (l != m ==> l.attempt < m.attempt)
    ensures l != m ==> forall k, run: StoredRun :: j <= k <= |ops| && run.id == l.id ==>
                         !LeasedApplies(states[k], run, l)
  {
    hide *;
    QueuesFollowProtocol(h, states, ops);
    TraceLength(h, states, ops);
    InvOfQueues(states[0]);
    LeasedMeansCurrent(states[i], ops[i].run, l);
    LeasedMeansCurrent(states[j], ops[j].run, m);
    Q.GuardFollowsAttempts(JobQueues(states), Clocks(states), QueueOps(states, ops, true), l, m, i, j);
    forall k, run: StoredRun | l != m && j <= k <= |ops| && run.id == l.id ensures !LeasedApplies(states[k], run, l) {
      LeasedMeansCurrent(states[k], run, l);
    }
  }

  /** The signing queue keeps the same law. */
  lemma SignedWritesFollowAttempts(h: Hasher, states: seq<State>, ops: seq<Op>, i: nat, j: nat, l: Q.Lease, m: Q.Lease)
    requires Trace(h, states, ops) && Inv(states[0]) && i < j < |ops|
    requires ops[i].SaveSigned? && ops[i].lease == l && ops[i].run.id == l.id && l in states[i].signing.issued
    requires ops[j].SaveSigned? && ops[j].lease == m && ops[j].run.id == m.id && m in states[j].signing.issued
    requires l.id == m.id && SignedApplies(states[i], ops[i].run, l) && SignedApplies(states[j], ops[j].run, m)
    ensures l.attempt <= m.attempt && (l != m ==> l.attempt < m.attempt)
    ensures l != m ==> forall k, run: StoredRun :: j <= k <= |ops| && run.id == l.id ==>
                         !SignedApplies(states[k], run, l)
  {
    hide *;
    QueuesFollowProtocol(h, states, ops);
    TraceLength(h, states, ops);
    InvOfQueues(states[0]);
    SignedMeansCurrent(states[i], ops[i].run, l);
    SignedMeansCurrent(states[j], ops[j].run, m);
    Q.GuardFollowsAttempts(SigningQueues(states), Clocks(states), QueueOps(states, ops, false), l, m, i, j);
    forall k, run: StoredRun | l != m && j <= k <= |ops| && run.id == l.id ensures !SignedApplies(states[k], run, l) {
      SignedMeansCurrent(states[k], run, l);
    }
  }

  /** Once a worker's lease has failed the guard, none of its later renewals, finishes
      or leased writes has any effect. */
  lemma LostLeaseDoesNothing(h: Hasher, states: seq<State>, ops: seq<Op>, i: nat, j: nat, l: Q.Lease)
    requires Trace(h, states, ops) && Inv(states[0]) && i <= j < |ops|
    requires l in states[i].jobs.issued && !Q.Current(states[i].jobs.rows, l, states[i].now)
    requires ops[j] == RenewRun(l) || (ops[j].FinishRun? && ops[j].lease == l)
             || (ops[j].SaveLeased? && ops[j].lease == l && ops[j].run.id == l.id)
    ensures states[j + 1] == states[j]
  {
    hide *;
    QueuesFollowProtocol(h, states, ops);
    TraceLength(h, states, ops);
    InvOfQueues(states[0]);
    Q.LossIsPermanent(JobQueues(states), Clocks(states), QueueOps(states, ops, true), l, i, j);
    TraceStep(h, states, ops, j);
    StaleDoesNothing(h, states[j], ops[j], l);
  }

  lemma TraceStep(h: Hasher, states: seq<State>, ops: seq<Op>, i: nat)
    requires Trace(h, states, ops) && i < |ops|
    ensures |states| == |ops| + 1 && states[i + 1] == Next(h, states[i], ops[i])
  {}

  lemma StaleDoesNothing(h: Hasher, s: State, op: Op, l: Q.Lease)
    requires !Q.Current(s.jobs.rows, l, s.now)
    requires op == RenewRun(l) || (op.FinishRun? && op.lease == l)
             || (op.SaveLeased? && op.lease == l && op.run.id == l.id)
    ensures Next(h, s, op) == s
  {
    hide Q.Current;
  }

  // ---- Durable cancellation ----

  /** The run is cancelled and neither queue can hand it out. */
  predicate Final(s: State, id: Id) {
    id in s.runs && s.runs[id].state == CANCELLED && !Q.Live(s.jobs.rows, id) && !Q.Live(s.signing.rows, id)
  }

  /** The steps that can undo a cancellation: staging an unsigned result over it, adding
      the signing job that was not there, or adding the evaluation job that was not
      there when the cancellation committed. */
  predicate Revives(s: State, op: Op, id: Id) {
    || (op.StageSigning? && op.run.id == id && op.run.state != CANCELLED)
    || (op.EnqueueSigning? && op.id == id && id !in s.signing.rows)
    || (op.EnqueueRun? && op.run.id == id && id !in s.jobs.rows && HasCapacity(s, op.maxQueued))
  }

  lemma CancelCommits(h: Hasher, s: State, id: Id, tokenHash: string, at: string)
    requires Inv(s) && CancelApplies(s, id, tokenHash)
    ensures Final(Next(h, s, CancelDurably(id, tokenHash, at)), id)
    ensures Next(h, s, CancelDurably(id, tokenHash, at)).runs[id].revision == s.runs[id].revision + 1
  {
    hide Q.Next, Q.Inv, Q.Allowed, Sealed;
    CancelledJobIsDead(s.jobs, s.now, id);
    CancelledJobIsDead(s.signing, s.now, id);
  }

  lemma CancelledJobIsDead(q: Q.Queue, now: int, id: Id)
    ensures !Q.Live(Q.Next(q, now, Q.Cancel(id)).rows, id)
  {}

  lemma JobsStayDead(s: State, op: Op, id: Id)
    requires Inv(s) && Allowed(s, op) && !Q.Live(s.jobs.rows, id)
    ensures Q.Live(Q.Next(s.jobs, s.now, JobsOp(s, op)).rows, id)
            <==> op.EnqueueRun? && op.run.id == id && id !in s.jobs.rows && HasCapacity(s, op.maxQueued)
  {
    if id in s.jobs.rows { Q.StepIsMonotone(s.jobs, s.now, JobsOp(s, op), id); }
  }

  lemma SigningStaysDead(s: State, op: Op, id: Id)
    requires Inv(s) && Allowed(s, op) && !Q.Live(s.signing.rows, id) && id in s.runs
    ensures Q.Live(Q.Next(s.signing, s.now, SigningOp(s, op)).rows, id)
            <==> op.EnqueueSigning? && op.id == id && id !in s.signing.rows
  {
    if id in s.signing.rows { Q.StepIsMonotone(s.signing, s.now, SigningOp(s, op), id); }
  }

  lemma DeadJobHasNoLease(q: Q.Queue, l: Q.Lease, now: int)
    requires !Q.Live(q.rows, l.id)
    ensures !Q.Current(q.rows, l, now)
  {}

  lemma DeadJobIsNotExhausted(q: Q.Queue, id: Id, now: int)
    requires !Q.Live(q.rows, id) && id in q.rows
    ensures !Q.Exhausted(q.rows[id], now)
  {}

  lemma RunStaysCancelled(h: Hasher, s: State, op: Op, id: Id)
    requires Inv(s) && Allowed(s, op) && Final(s, id)
    ensures id in NextRuns(h, s, op)
    ensures NextRuns(h, s, op)[id].state == CANCELLED
            <==> !(op.StageSigning? && op.run.id == id && op.run.state != CANCELLED)
  {
    hide Q.Next, Q.Inv, Q.Allowed, Q.Current, Q.Live, JobsOp, SigningOp, HasCapacity, Sealed;
    if op.FailExhausted? && id in s.jobs.rows { DeadJobIsNotExhausted(s.jobs, id, s.now); }
    if op.SaveLeased? { DeadJobHasNoLease(s.jobs, op.lease.(id := id), s.now); }
    if op.SaveSigned? { DeadJobHasNoLease(s.signing, op.lease.(id := id), s.now); }
  }

  lemma FinalStep(h: Hasher, s: State, op: Op, id: Id)
    requires Inv(s) && Allowed(s, op) && Final(s, id)
    ensures Final(Next(h, s, op), id) <==> !Revives(s, op, id)
  {
    hide Q.Next, NextRuns, JobsOp, SigningOp, HasCapacity;
    JobsStayDead(s, op, id);
    SigningStaysDead(s, op, id);
    RunStaysCancelled(h, s, op, id);
  }

  /** From a committed cancellation on, over every interleaving: the run stays CANCELLED
      and unclaimable throughout exactly when none of the three reviving steps occurs. */
  lemma {:induction false} CancellationIsFinalIff(h: Hasher, states: seq<State>, ops: seq<Op>, id: Id)
    requires Trace(h, states, ops) && Inv(states[0]) && Final(states[0], id)
    ensures (forall i :: 0 <= i <= |ops| ==> Final(states[i], id))
            <==> (forall i :: 0 <= i < |ops| ==> !Revives(states[i], ops[i], id))
  {
    if forall i :: 0 <= i <= |ops| ==> Final(states[i], id) {
      forall i | 0 <= i < |ops| ensures !Revives(states[i], ops[i], id) {
        TraceKeepsInv(h, states, ops, i);
        assert Final(states[i], id) && Final(states[i + 1], id);
        assert states[i + 1] == Next(h, states[i], ops[i]);
        FinalStep(h, states[i], ops[i], id);
      }
    }
    if forall i :: 0 <= i < |ops| ==> !Revives(states[i], ops[i], id) {
      forall i | 0 <= i <= |ops| ensures Final(states[i], id) { StaysFinal(h, states, ops, id, i); }
    }
  }

  lemma {:induction false} StaysFinal(h: Hasher, states: seq<State>, ops: seq<Op>, id: Id, i: nat)
    requires Trace(h, states, ops) && Inv(states[0]) && Final(states[0], id) && i <= |ops|
    requires forall k :: 0 <= k < i ==> !Revives(states[k], ops[k], id)
    ensures Final(states[i], id)
  {
    if i > 0 {
      StaysFinal(h, states, ops, id, i - 1);
      TraceKeepsInv(h, states, ops, i - 1);
      FinalStep(h, states[i - 1], ops[i - 1], id);
    }
  }

  /** The job row must exist: if it was missing when the cancellation committed, a late
      enqueue of the run, however short its log, then a claim and one leased save carry
      the run out of CANCELLED. */
  lemma LateEnqueueRevives(
    h: Hasher, s: State, enqueued: StoredRun, saved: StoredRun, maxQueued: int, worker: string, token: string,
    leaseMs: int)
    requires Inv(s) && Final(s, enqueued.id) && enqueued.id !in s.jobs.rows && HasCapacity(s, maxQueued)
    requires saved.id == enqueued.id && s.runs[saved.id].revision <= |saved.events| && saved.state != CANCELLED
    requires leaseMs > 0 && forall l :: l in s.jobs.issued ==> l.token != token
    ensures var id := enqueued.id;
            var s1 := Next(h, s, EnqueueRun(enqueued, maxQueued));
            var claim := ClaimRun(worker, token, leaseMs, s1.jobs.rows.Keys - {id}, Some(id));
            var s2 := Next(h, s1, claim);
            var s3 := Next(h, s2, SaveLeased(saved, Q.Lease(id, worker, token, leaseMs, 1)));
            Allowed(s1, claim) && s3.runs[id] == RowFor(saved) && !Final(s3, id)
  {
    hide HasCapacity, Sealed;
    var id := enqueued.id;
    var s1 := Next(h, s, EnqueueRun(enqueued, maxQueued));
    assert s1.jobs.rows[id] == Q.NewJob(s.now) && s1.runs == s.runs;
    var claim := ClaimRun(worker, token, leaseMs, s1.jobs.rows.Keys - {id}, Some(id));
    var s2 := Next(h, s1, claim);
    assert s2.jobs.rows[id] == Q.Taken(Q.NewJob(s.now), worker, token, leaseMs, s.now);
    assert s2.runs == s.runs;
  }

  // ---- Signing jobs ----

  /** Once a signing lease failed the guard, neither its finish nor its writes, such as
      the rejection of a run that it had already saved, change anything. */
  lemma LostSigningLeaseDoesNothing(h: Hasher, states: seq<State>, ops: seq<Op>, i: nat, j: nat, l: Q.Lease)
    requires Trace(h, states, ops) && Inv(states[0]) && i <= j < |ops|
    requires l in states[i].signing.issued && !Q.Current(states[i].signing.rows, l, states[i].now)
    requires (ops[j].FinishSigning? && ops[j].lease == l)
             || (ops[j].SaveSigned? && ops[j].lease == l && ops[j].run.id == l.id)
    ensures states[j + 1] == states[j]
  {
    hide *;
    QueuesFollowProtocol(h, states, ops);
    TraceLength(h, states, ops);
    InvOfQueues(states[0]);
    Q.LossIsPermanent(SigningQueues(states), Clocks(states), QueueOps(states, ops, false), l, i, j);
    TraceStep(h, states, ops, j);
    StaleSigningDoesNothing(h, states[j], ops[j], l);
  }

  lemma StaleSigningDoesNothing(h: Hasher, s: State, op: Op, l: Q.Lease)
    requires !Q.Current(s.signing.rows, l, s.now)
    requires (op.FinishSigning? && op.lease == l) || (op.SaveSigned? && op.lease == l && op.run.id == l.id)
    ensures Next(h, s, op) == s
  {
    hide Q.Current;
  }

  /** A signed run is safe from other signers once its job has ended: over every
      interleaving, after a successful finish of a signing job no signed write of its run
      succeeds again, whatever lease it carries. */
  lemma FinishedSigningIsFinal(
    h: Hasher, states: seq<State>, ops: seq<Op>, i: nat, j: nat, l: Q.Lease, error: Option<string>)
    requires Trace(h, states, ops) && Inv(states[0]) && i < j <= |ops|
    requires ops[i] == FinishSigning(l, error) && Q.Current(states[i].signing.rows, l, states[i].now)
    ensures forall run: StoredRun, m: Q.Lease :: run.id == l.id ==> !SignedApplies(states[j], run, m)
  {
    hide *;
    QueuesFollowProtocol(h, states, ops);
    TraceLength(h, states, ops);
    InvOfQueues(states[0]);
    TraceStep(h, states, ops, i);
    FinishedSigningJob(h, states[i], l, error);
    Q.AttemptsNeverFall(SigningQueues(states), Clocks(states), QueueOps(states, ops, false), l.id, i + 1, j);
    forall run: StoredRun, m: Q.Lease | run.id == l.id ensures !SignedApplies(states[j], run, m) {
      DeadRowHasNoSigner(states[i + 1], states[j], run, m);
    }
  }

  lemma FinishedSigningJob(h: Hasher, s: State, l: Q.Lease, error: Option<string>)
    requires Q.Current(s.signing.rows, l, s.now)
    ensures var t := Next(h, s, FinishSigning(l, error)); l.id in t.signing.rows && !Q.Live(t.signing.rows, l.id)
  {}

  lemma DeadRowHasNoSigner(s: State, t: State, run: StoredRun, m: Q.Lease)
    requires run.id in s.signing.rows && !Q.Live(s.signing.rows, run.id)
    requires run.id in t.signing.rows && t.signing.rows[run.id] == s.signing.rows[run.id]
    ensures !SignedApplies(t, run, m)
  {}

  predicate Cancels(s: State, op: Op, id: Id) { op.CancelDurably? && op.id == id && CancelApplies(s, id, op.tokenHash) }

  lemma SpentSigningStep(h: Hasher, s: State, op: Op, id: Id)
    requires Inv(s) && Allowed(s, op) && id in s.signing.rows && Q.Exhausted(s.signing.rows[id], s.now)
    ensures id in Next(h, s, op).signing.rows && s.now <= Next(h, s, op).now
    ensures !Cancels(s, op, id) ==> Next(h, s, op).signing.rows[id] == s.signing.rows[id]
    ensures Cancels(s, op, id) ==> Next(h, s, op).signing.rows[id].status == Q.Cancelled
  {
    hide Q.Next, Q.Inv, Q.Allowed, CancelApplies, NextRuns, JobsOp, NextInitial, Q.Exhausted;
    if Cancels(s, op, id) {
      CancelledRow(s.signing, s.now, id);
    } else {
      Q.SpentStep(s.signing, s.now, SigningOp(s, op), id);
    }
  }

  lemma CancelledRow(q: Q.Queue, now: int, id: Id)
    requires id in q.rows && Q.Exhausted(q.rows[id], now)
    ensures id in Q.Next(q, now, Q.Cancel(id)).rows && Q.Next(q, now, Q.Cancel(id)).rows[id].status == Q.Cancelled
  {}

  /** Nothing sweeps the signing queue: over every interleaving, a signing job whose third
      lease has run out stays running for ever - never claimed, finished or failed - unless
      and until a cancellation of its run commits. */
  lemma {:induction false} SpentSigningJobIsStuck(h: Hasher, states: seq<State>, ops: seq<Op>, id: Id, i: nat, j: nat)
    requires Trace(h, states, ops) && Inv(states[0]) && i <= j <= |ops|
    requires id in states[i].signing.rows && Q.Exhausted(states[i].signing.rows[id], states[i].now)
    ensures id in states[j].signing.rows
    ensures states[j].signing.rows[id] == states[i].signing.rows[id]
            <==> forall k :: i <= k < j ==> !Cancels(states[k], ops[k], id)
    decreases j - i
  {
    hide Inv, Next, Cancels, Q.Exhausted;
    if i < j {
      TraceKeepsInv(h, states, ops, i);
      TraceStep(h, states, ops, i);
      SpentSigningStep(h, states[i], ops[i], id);
      if Cancels(states[i], ops[i], id) {
        SigningJobStaysClosed(h, states, ops, id, i + 1, j);
        SpentIsRunning(states[i], id);
      } else {
        LaterStillSpent(states[i].signing.rows[id], states[i].now, states[i + 1].now);
        SpentSigningJobIsStuck(h, states, ops, id, i + 1, j);
      }
    }
  }

  lemma LaterStillSpent(j: Q.Job, now: int, later: int)
    requires Q.Exhausted(j, now) && now <= later
    ensures Q.Exhausted(j, later)
  {}

  lemma SpentIsRunning(s: State, id: Id)
    requires id in s.signing.rows && Q.Exhausted(s.signing.rows[id], s.now)
    ensures s.signing.rows[id].status == Q.Running
  {}

  lemma SigningJobStaysClosed(h: Hasher, states: seq<State>, ops: seq<Op>, id: Id, i: nat, j: nat)
    requires Trace(h, states, ops) && Inv(states[0]) && i <= j <= |ops|
    requires id in states[i].signing.rows && states[i].signing.rows[id].status == Q.Cancelled
    ensures id in states[j].signing.rows && states[j].signing.rows[id] == states[i].signing.rows[id]
  {
    hide *;
    QueuesFollowProtocol(h, states, ops);
    TraceLength(h, states, ops);
    InvOfQueues(states[0]);
    CancelledIsDead(states[i].signing, id);
    Q.AttemptsNeverFall(SigningQueues(states), Clocks(states), QueueOps(states, ops, false), id, i, j);
  }

  lemma CancelledIsDead(q: Q.Queue, id: Id)
    requires id in q.rows && q.rows[id].status == Q.Cancelled
    ensures !Q.Live(q.rows, id)
  {}
}
