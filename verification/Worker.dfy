/** The evaluation worker of packages/runtime/src/index.ts: one claimed attempt, whose
    checkpoints, renewals and finish are separate statements on the shared store, so
    anything may happen in between. */
module Worker {
  import opened Wrappers
  import opened Records
  import opened Hashing
  import opened EventChain
  import opened Persistence
  import Q = JobQueue

  function RecoveredInput(attempt: nat, at: string): EventInput {
    EventInput(at, CREATED, "worker.recovered", "Worker restarted the trial from its sealed input",
               Some(JObject(map["attempt" := JNumber(attempt as real),
                                "discardedPartialAttempt" := JNumber((attempt - 1) as real)])))
  }

  /** A later attempt's run after its first event. */
  function Recovered(h: Hasher, initial: StoredRun, attempt: nat, at: string): StoredRun {
    initial.(state := CREATED, events := initial.events + [Sealed(h, initial.events, RecoveredInput(attempt, at))])
  }

  /** Its one event names the attempt that begins and the one given up; nothing but the
      state and the events differ from the run as it was enqueued. */
  lemma RecoveredSays(h: Hasher, initial: StoredRun, attempt: nat, at: string)
    ensures var run, n := Recovered(h, initial, attempt, at), |initial.events|;
            && run == initial.(state := CREATED, events := run.events)
            && |run.events| == n + 1 && run.events[..n] == initial.events
            && run.events[n].base.rest ==
               map["at" := JString(at), "state" := JString("CREATED"), "type" := JString("worker.recovered"),
                   "message" := JString("Worker restarted the trial from its sealed input"),
                   "detail" := JObject(map["attempt" := JNumber(attempt as real),
                                           "discardedPartialAttempt" := JNumber((attempt - 1) as real)])]
  {
    hide EventId, Head;
  }

  class Attempt {
    const lease: Q.Lease
    var lost: bool

    constructor (lease: Q.Lease)
      ensures this.lease == lease && !lost
    {
      this.lease, lost := lease, false;
    }

    /** How an attempt begins: the first one goes on from the loaded snapshot, every later
        one from the run as it was enqueued, and says so in a first checkpoint. */
    method Start(h: Hasher, store: Store, loaded: StoredRun, initialRun: Option<StoredRun>, at: string)
      returns (run: StoredRun)
      requires store.Valid() && !lost
      modifies this, store
      ensures lease.attempt <= 1 ==> run == loaded && !lost && store.Contents() == old(store.Contents())
      ensures lease.attempt > 1 ==>
                && run == Recovered(h, if initialRun.Some? then initialRun.value else loaded, lease.attempt, at)
                && store.Contents() == Next(h, old(store.Contents()), SaveLeased(run, lease))
                && (lost <==> !LeasedApplies(old(store.Contents()), run, lease))
    {
      run := loaded;
      if lease.attempt > 1 {
        run := if initialRun.Some? then initialRun.value else loaded;
        var log := new EventLog(run.events);
        var _ := log.Append(h, RecoveredInput(lease.attempt, at));
        run := run.(state := CREATED, events := log.events);
        Checkpoint(h, store, run);
      }
    }

    /** A checkpoint queued by emit: skipped once the lease is lost, and a refusal is
        taken as its loss. */
    method Checkpoint(h: Hasher, store: Store, snapshot: StoredRun)
      requires store.Valid()
      modifies this, store
      ensures lost <==> old(lost) || !LeasedApplies(old(store.Contents()), snapshot, lease)
      ensures store.Contents() == if old(lost) then old(store.Contents())
                                  else Next(h, old(store.Contents()), SaveLeased(snapshot, lease))
    {
      if !lost { lost := store.SaveRun(h, snapshot, Some(lease)); }
    }

    /** The renewal timer. */
    method Renew(h: Hasher, store: Store)
      requires store.Valid()
      modifies this, store.jobs
      ensures lost <==> old(lost) || !Q.Current(old(store.jobs.rows), lease, store.now)
      ensures store.Contents() == if old(lost) then old(store.Contents())
                                  else Next(h, old(store.Contents()), RenewRun(lease))
    {
      if !lost {
        var renewed := store.RenewRunLease(h, lease);
        lost := !renewed;
      }
    }

    /** The last save of an attempt that was not lost. */
    method SaveResult(h: Hasher, store: Store, run: StoredRun) returns (saved: bool)
      requires store.Valid()
      modifies store
      ensures saved <==> !lost && LeasedApplies(old(store.Contents()), run, lease)
      ensures store.Contents() == if lost then old(store.Contents())
                                  else Next(h, old(store.Contents()), SaveLeased(run, lease))
    {
      if lost { return false; }
      var refused := store.SaveRun(h, run, Some(lease));
      saved := !refused;
    }

    /** A saved run closes its job under its own outcome; anything else is reported as
        a worker failure. Both need the lease. */
    method Finish(h: Hasher, store: Store, run: StoredRun, saved: bool, failure: string) returns (finished: bool)
      requires store.Valid()
      modifies store.jobs
      ensures var error := if !saved then Some(failure) else if run.state == FAILED then run.error else None;
              store.Contents() == Next(h, old(store.Contents()), FinishRun(lease, error))
      ensures finished == Q.Current(old(store.jobs.rows), lease, store.now)
      ensures finished && saved && run.state != FAILED ==>
                lease.id in store.jobs.rows && store.jobs.rows[lease.id].status == Q.Finished
      ensures finished && saved && run.state == FAILED && run.error.Some? && run.error.value != "" ==>
                lease.id in store.jobs.rows && store.jobs.rows[lease.id].status == Q.Failed
                && store.jobs.rows[lease.id].lastError == run.error
      ensures finished && !saved && failure != "" ==>
                lease.id in store.jobs.rows && store.jobs.rows[lease.id].status == Q.Failed
                && store.jobs.rows[lease.id].lastError == Some(failure)
    {
      var error := if !saved then Some(failure) else if run.state == FAILED then run.error else None;
      finished := store.FinishRunJob(h, lease, error);
    }
  }

  // ---- Who writes a run's row while a lease is current ----

  /** A leased save by the attempt that holds l. */
  predicate Own(op: Op, l: Q.Lease) { op.SaveLeased? && op.run.id == l.id && op.lease.token == l.token }

  /** The writes of a run's snapshot that no evaluation lease guards. */
  predicate Leaseless(op: Op, id: Id) { (op.SaveRun? || op.StageSigning? || op.SaveSigned?) && op.run.id == id }

  /** One of these takes effect on the row of l's job. */
  predicate Wrote(s: State, op: Op, l: Q.Lease) {
    || (Own(op, l) && LeasedApplies(s, op.run, op.lease))
    || (Leaseless(op, l.id)
        && (op.SaveRun? ==> UnleasedApplies(s.runs, op.run))
        && (op.StageSigning? ==> l.id in s.runs)
        && (op.SaveSigned? ==> SignedApplies(s, op.run, op.lease)))
  }

  lemma NeitherCancelledNorSwept(h: Hasher, s: State, op: Op, l: Q.Lease)
    requires Q.Current(s.jobs.rows, l, s.now) && Q.Current(Next(h, s, op).jobs.rows, l, Next(h, s, op).now)
    ensures !Cancels(s, op, l.id) && !Q.Exhausted(s.jobs.rows[l.id], s.now)
  {
    hide NextRuns, NextInitial, SigningOp, HasCapacity, CancelApplies;
  }

  /** While its lease stays current, no other holder's write, no cancellation, no sweep
      and no late enqueue touches the row. */
  lemma HolderKeepsRow(h: Hasher, s: State, op: Op, l: Q.Lease)
    requires Inv(s) && l.id in s.runs
    requires Q.Current(s.jobs.rows, l, s.now) && Q.Current(Next(h, s, op).jobs.rows, l, Next(h, s, op).now)
    ensures l.id in Next(h, s, op).runs
    ensures Next(h, s, op).runs[l.id] == if Wrote(s, op, l) then RowFor(op.run) else s.runs[l.id]
  {
    RunsKept(h, s, op);
    NeitherCancelledNorSwept(h, s, op, l);
    if op.SaveLeased? && op.run.id == l.id && !Own(op, l) { ForeignSaveIsRefused(s, op, l); }
    RowAfter(h, s, op, l);
  }

  lemma ForeignSaveIsRefused(s: State, op: Op, l: Q.Lease)
    requires Q.Current(s.jobs.rows, l, s.now) && op.SaveLeased? && !Own(op, l) && op.run.id == l.id
    ensures !LeasedApplies(s, op.run, op.lease)
  {}

  lemma RowAfter(h: Hasher, s: State, op: Op, l: Q.Lease)
    requires l.id in s.runs && l.id in NextRuns(h, s, op)
    requires !Cancels(s, op, l.id) && (l.id in s.jobs.rows ==> !Q.Exhausted(s.jobs.rows[l.id], s.now))
    requires op.SaveLeased? && !Own(op, l) && op.run.id == l.id ==> !LeasedApplies(s, op.run, op.lease)
    ensures NextRuns(h, s, op)[l.id] == if Wrote(s, op, l) then RowFor(op.run) else s.runs[l.id]
  {
    hide HasCapacity, Sealed, SignedApplies, UnleasedApplies, LeasedApplies, CancelApplies, Q.Exhausted, RowFor,
         FailedRow, CancelledRun;
  }

  lemma CurrentThroughout(h: Hasher, states: seq<State>, ops: seq<Op>, l: Q.Lease, i: nat, j: nat)
    requires Trace(h, states, ops) && Inv(states[0]) && i <= j <= |ops| && l in states[i].jobs.issued
    requires Q.Current(states[j].jobs.rows, l, states[j].now)
    ensures Q.Current(states[i].jobs.rows, l, states[i].now)
  {
    hide *;
    QueuesFollowProtocol(h, states, ops);
    TraceLength(h, states, ops);
    InvOfQueues(states[0]);
    if !Q.Current(states[i].jobs.rows, l, states[i].now) {
      Q.LossIsPermanent(JobQueues(states), Clocks(states), QueueOps(states, ops, true), l, i, j);
    }
  }

  lemma IssuedStays(h: Hasher, states: seq<State>, ops: seq<Op>, l: Q.Lease, i: nat, j: nat)
    requires Trace(h, states, ops) && i <= j <= |ops| && l in states[i].jobs.issued
    ensures l in states[j].jobs.issued
  {
    hide *;
    QueuesFollowProtocol(h, states, ops);
    TraceLength(h, states, ops);
    Q.IssuedGrows(JobQueues(states), Clocks(states), QueueOps(states, ops, true), l, i, j);
  }

  /** Over every interleaving in which l is current at step j: the last effective write
      between i and j, or none, and then the row is as it was. */
  lemma {:induction false} LastWriter(h: Hasher, states: seq<State>, ops: seq<Op>, l: Q.Lease, i: nat, j: nat)
    returns (last: Option<nat>)
    requires Trace(h, states, ops) && Inv(states[0]) && i <= j <= |ops|
    requires l in states[i].jobs.issued && l.id in states[i].runs
    requires Q.Current(states[j].jobs.rows, l, states[j].now)
    ensures l.id in states[j].runs
    ensures last.None? ==>
              && states[j].runs[l.id] == states[i].runs[l.id]
              && forall m :: i <= m < j ==> !Wrote(states[m], ops[m], l)
    ensures last.Some? ==>
              && i <= last.value < j && Wrote(states[last.value], ops[last.value], l)
              && states[j].runs[l.id] == RowFor(ops[last.value].run)
              && forall m :: last.value < m < j ==> !Wrote(states[m], ops[m], l)
    decreases j - i
  {
    hide Inv, Next, Wrote, Q.Current, RowFor;
    TraceLength(h, states, ops);
    last := None;
    if i < j {
      TraceKeepsInv(h, states, ops, j - 1);
      TraceStep(h, states, ops, j - 1);
      IssuedStays(h, states, ops, l, i, j - 1);
      CurrentThroughout(h, states, ops, l, j - 1, j);
      last := LastWriter(h, states, ops, l, i, j - 1);
      HolderKeepsRow(h, states[j - 1], ops[j - 1], l);
      if Wrote(states[j - 1], ops[j - 1], l) { last := Some(j - 1); }
    }
  }

  // ---- A successful finish seals the saved run ----

  /** Over every interleaving: if an attempt saves its result at step i and finishes its
      job at a later step j, the run row at the finish is what the last effective write
      since then put there: the attempt's own, or one of those that no evaluation lease
      guards. Without such a later write it is the saved snapshot, whatever other workers,
      cancellations, sweeps and enqueues did; and the job keeps its outcome for ever. */
  lemma FinishSealsSavedRun(
    h: Hasher, states: seq<State>, ops: seq<Op>, i: nat, j: nat, l: Q.Lease, run: StoredRun, error: Option<string>)
    requires Trace(h, states, ops) && Inv(states[0]) && i < j < |ops|
    requires l in states[i].jobs.issued && run.id == l.id
    requires ops[i] == SaveLeased(run, l) && LeasedApplies(states[i], run, l)
    requires ops[j] == FinishRun(l, error) && Q.Current(states[j].jobs.rows, l, states[j].now)
    ensures l.id in states[j + 1].runs
    ensures exists k :: i <= k < j && Wrote(states[k], ops[k], l) && states[j + 1].runs[l.id] == RowFor(ops[k].run)
                        && forall m :: k < m < j ==> !Wrote(states[m], ops[m], l)
    ensures (forall m :: i < m < j ==> !Wrote(states[m], ops[m], l)) ==> states[j + 1].runs[l.id] == RowFor(run)
    ensures forall k :: j < k <= |ops| ==>
              l.id in states[k].jobs.rows && states[k].jobs.rows[l.id].status == Q.Outcome(error)
  {
    hide Trace, Inv, Next, Q.Current, LeasedApplies, Q.Trace, UnleasedApplies, SignedApplies, RowFor;
    TraceStep(h, states, ops, j);
    SavedRow(h, states[i], run, l);
    assert Wrote(states[i], ops[i], l);
    var last := LastWriter(h, states, ops, l, i, j);
    FinishedJob(h, states[j], l, error);
    var k := last.value;
    assert i <= k < j && Wrote(states[k], ops[k], l) && states[j + 1].runs[l.id] == RowFor(ops[k].run);
    forall k | j < k <= |ops|
      ensures l.id in states[k].jobs.rows && states[k].jobs.rows[l.id].status == Q.Outcome(error)
    {
      JobStaysClosed(h, states, ops, l.id, j + 1, k);
    }
  }

  /** Nothing has written the row since step i, and the log is not shorter than it. */
  predicate AfterNoWrite(states: seq<State>, ops: seq<Op>, l: Q.Lease, i: nat, j: nat, run: StoredRun)
    requires i <= j <= |ops| && |states| == |ops| + 1 && l.id in states[i].runs
  {
    states[i].runs[l.id].revision <= |run.events| && forall m :: i <= m < j ==> !Wrote(states[m], ops[m], l)
  }

  /** Step k was the last to write the row, and the log is not shorter than what it wrote. */
  predicate AfterWrite(states: seq<State>, ops: seq<Op>, l: Q.Lease, i: nat, j: nat, run: StoredRun, k: int)
    requires i <= j <= |ops| && |states| == |ops| + 1
  {
    && i <= k < j && Wrote(states[k], ops[k], l) && |ops[k].run.events| <= |run.events|
    && forall m :: k < m < j ==> !Wrote(states[m], ops[m], l)
  }

  /** What one leased save meets, over every interleaving and with no kind of write left
      out: it is accepted exactly when its lease is current and its log is not shorter
      than that of the last effective write since step i, or, without one, than the row
      at step i. */
  lemma SaveAcceptedIff(h: Hasher, states: seq<State>, ops: seq<Op>, l: Q.Lease, i: nat, j: nat, run: StoredRun)
    requires Trace(h, states, ops) && Inv(states[0]) && i <= j <= |ops| && l in states[i].jobs.issued
    requires l.id in states[i].runs && run.id == l.id
    ensures LeasedApplies(states[j], run, l) <==>
              && Q.Current(states[j].jobs.rows, l, states[j].now)
              && (AfterNoWrite(states, ops, l, i, j, run) || exists k :: AfterWrite(states, ops, l, i, j, run, k))
  {
    hide Trace, Inv, Next, Wrote, Q.Current, LeasedApplies;
    TraceLength(h, states, ops);
    LeasedMeansCurrent(states[j], run, l);
    if Q.Current(states[j].jobs.rows, l, states[j].now) {
      var last := LastWriter(h, states, ops, l, i, j);
      LeasedAppliesIff(states[j], run, l);
      if last.Some? && LeasedApplies(states[j], run, l) { assert AfterWrite(states, ops, l, i, j, run, last.value); }
    }
  }

  lemma SavedRow(h: Hasher, s: State, run: StoredRun, l: Q.Lease)
    requires LeasedApplies(s, run, l)
    ensures run.id in s.runs
    ensures run.id in Next(h, s, SaveLeased(run, l)).runs && Next(h, s, SaveLeased(run, l)).runs[run.id] == RowFor(run)
  {}

  lemma FinishedJob(h: Hasher, s: State, l: Q.Lease, error: Option<string>)
    requires Q.Current(s.jobs.rows, l, s.now)
    ensures var s' := Next(h, s, FinishRun(l, error));
            && s'.runs == s.runs && l.id in s'.jobs.rows && s'.jobs.rows[l.id].status == Q.Outcome(error)
            && !Q.Live(s'.jobs.rows, l.id)
  {}

  lemma JobStaysClosed(h: Hasher, states: seq<State>, ops: seq<Op>, id: Id, i: nat, j: nat)
    requires Trace(h, states, ops) && Inv(states[0]) && i <= j <= |ops|
    requires id in states[i].jobs.rows && !Q.Live(states[i].jobs.rows, id)
    ensures id in states[j].jobs.rows && states[j].jobs.rows[id] == states[i].jobs.rows[id]
  {
    hide *;
    QueuesFollowProtocol(h, states, ops);
    TraceLength(h, states, ops);
    InvOfQueues(states[0]);
    Q.AttemptsNeverFall(JobQueues(states), Clocks(states), QueueOps(states, ops, true), id, i, j);
  }

  // ---- When a recovered attempt gets anywhere ----

  /** Step i claims a job that was claimed before, and issues l. */
  predicate Reclaims(s: State, op: Op, l: Q.Lease) {
    && op.ClaimRun? && op.pick.Some? && op.pick.value in s.jobs.rows
    && l == Q.LeaseOf(s.jobs.rows, JobsOp(s, op)) && l.attempt > 1
  }

  /** The first save of l's attempt after step i is the recovered run. */
  ghost predicate StartsRecovered(h: Hasher, initial: StoredRun, ops: seq<Op>, i: nat, l: Q.Lease) {
    forall k :: i < k < |ops| && Own(ops[k], l) && (forall m :: i < m < k ==> !Own(ops[m], l))
      ==> exists at :: ops[k].run == Recovered(h, initial, l.attempt, at)
  }

  /** Its log only grows from save to save, and a save that is refused under a current
      lease is its last. After the lease is gone it may still try, in vain. */
  ghost predicate GrowsWhileAccepted(states: seq<State>, ops: seq<Op>, i: nat, l: Q.Lease)
    requires |ops| <= |states|
  {
    && (forall k :: i < k < |ops| && Own(ops[k], l) ==> ops[k].lease == l)
    && (forall m, k :: i < m < k < |ops| && Own(ops[m], l) && Own(ops[k], l) ==>
          && |ops[m].run.events| <= |ops[k].run.events|
          && (Q.Current(states[m].jobs.rows, l, states[m].now) ==> LeasedApplies(states[m], ops[m].run, l)))
  }

  /** An effective write of l's row that no evaluation lease guards. */
  predicate LeaselessWrite(s: State, op: Op, l: Q.Lease) { Leaseless(op, l.id) && Wrote(s, op, l) }

  /** How the attempt of lease l behaves after its claim at step i. */
  ghost predicate Replays(h: Hasher, states: seq<State>, ops: seq<Op>, i: nat, l: Q.Lease)
    requires i < |ops| <= |states| && l.id in states[i].initial
  {
    StartsRecovered(h, states[i].initial[l.id], ops, i, l) && GrowsWhileAccepted(states, ops, i, l)
  }

  /** The stored log is no longer than the recovered run's. */
  predicate Resumable(s: State, id: Id)
    requires id in s.runs && id in s.initial
  {
    s.runs[id].revision <= |s.initial[id].events| + 1
  }

  lemma ClaimedRow(h: Hasher, s: State, op: Op, l: Q.Lease)
    requires Inv(s) && Reclaims(s, op, l)
    ensures l.id in s.runs && l.id in s.initial && l in Next(h, s, op).jobs.issued && Next(h, s, op).runs == s.runs
  {
    hide Q.Inv;
  }

  lemma {:induction false} FirstOwn(ops: seq<Op>, l: Q.Lease, i: nat, k: nat) returns (f: nat)
    requires i < k < |ops| && Own(ops[k], l)
    ensures i < f <= k && Own(ops[f], l) && forall m :: i < m < f ==> !Own(ops[m], l)
    decreases k
  {
    f := k;
    if m :| i < m < k && Own(ops[m], l) { f := FirstOwn(ops, l, i, m); }
  }

  lemma OwnWritesApply(s: State, op: Op, l: Q.Lease)
    requires !LeaselessWrite(s, op, l)
    ensures Wrote(s, op, l) <==> Own(op, l) && LeasedApplies(s, op.run, op.lease)
  {}

  lemma LeasedAppliesIff(s: State, run: StoredRun, l: Q.Lease)
    requires run.id == l.id && l.id in s.runs && Q.Current(s.jobs.rows, l, s.now)
    ensures LeasedApplies(s, run, l) <==> s.runs[l.id].revision <= |run.events|
  {}

  /** The attempt's first save meets the row that its claim met. */
  lemma FirstSaveIff(h: Hasher, states: seq<State>, ops: seq<Op>, i: nat, f: nat, l: Q.Lease)
    requires Trace(h, states, ops) && Inv(states[0]) && i < f < |ops| && Reclaims(states[i], ops[i], l)
    requires l.id in states[i].initial && l.id in states[i].runs && Replays(h, states, ops, i, l)
    requires forall k :: i < k < f ==> !LeaselessWrite(states[k], ops[k], l) && !Own(ops[k], l)
    requires Own(ops[f], l) && Q.Current(states[f].jobs.rows, l, states[f].now)
    ensures LeasedApplies(states[f], ops[f].run, l) <==> Resumable(states[i], l.id)
  {
    hide Trace, Inv, Next, Wrote, Reclaims, LeaselessWrite, LeasedApplies, Q.Current, Sealed;
    TraceKeepsInv(h, states, ops, i);
    TraceStep(h, states, ops, i);
    ClaimedRow(h, states[i], ops[i], l);
    var last := LastWriter(h, states, ops, l, i + 1, f);
    if last.Some? { OwnWritesApply(states[last.value], ops[last.value], l); }
    assert states[f].runs[l.id] == states[i].runs[l.id];
    var at :| ops[f].run == Recovered(h, states[i].initial[l.id], l.attempt, at);
    assert |ops[f].run.events| == |states[i].initial[l.id].events| + 1;
    LeasedAppliesIff(states[f], ops[f].run, l);
  }

  /** Recovery works or does not by one number at the claim. Over every interleaving
      without effective lease-less writes of the run, each save of a recovered attempt that still
      holds its lease is accepted if the stored log was at most one event longer than the
      enqueued run's when the job was reclaimed, and refused if it was longer. */
  lemma RecoverySucceedsIff(h: Hasher, states: seq<State>, ops: seq<Op>, i: nat, j: nat, l: Q.Lease)
    requires Trace(h, states, ops) && Inv(states[0]) && i < j < |ops| && Reclaims(states[i], ops[i], l)
    requires l.id in states[i].initial && l.id in states[i].runs && Replays(h, states, ops, i, l)
    requires forall k :: i < k < j ==> !LeaselessWrite(states[k], ops[k], l)
    requires Own(ops[j], l) && Q.Current(states[j].jobs.rows, l, states[j].now)
    ensures LeasedApplies(states[j], ops[j].run, l) <==> Resumable(states[i], l.id)
  {
    hide Trace, Inv, Next, Wrote, Reclaims, LeaselessWrite, LeasedApplies, Q.Current, Sealed, Own, Resumable,
         StartsRecovered;
    TraceKeepsInv(h, states, ops, i);
    TraceStep(h, states, ops, i);
    ClaimedRow(h, states[i], ops[i], l);
    var f := FirstOwn(ops, l, i, j);
    TraceLength(h, states, ops);
    IssuedStays(h, states, ops, l, i + 1, f);
    CurrentThroughout(h, states, ops, l, f, j);
    FirstSaveIff(h, states, ops, i, f, l);
    if f < j {
      assert LeasedApplies(states[f], ops[f].run, l);
      LaterSaveApplies(h, states, ops, i, f, j, l);
    }
  }

  /** After an accepted first save the attempt goes on: its log never falls behind. */
  lemma LaterSaveApplies(h: Hasher, states: seq<State>, ops: seq<Op>, i: nat, f: nat, j: nat, l: Q.Lease)
    requires Trace(h, states, ops) && Inv(states[0]) && i < f < j < |ops|
    requires l.id in states[i].initial && Replays(h, states, ops, i, l) && l in states[f].jobs.issued
    requires forall k :: i < k < j ==> !LeaselessWrite(states[k], ops[k], l)
    requires Own(ops[f], l) && LeasedApplies(states[f], ops[f].run, l)
    requires Own(ops[j], l) && Q.Current(states[j].jobs.rows, l, states[j].now)
    ensures LeasedApplies(states[j], ops[j].run, l)
  {
    hide *;
    TraceLength(h, states, ops);
    OwnRun(ops[f], l);
    OwnRun(ops[j], l);
    SavedRow(h, states[f], ops[f].run, l);
    var last := LastWriter(h, states, ops, l, f, j);
    OwnWritesApply(states[f], ops[f], l);
    OwnLease(h, states, ops, i, f, l);
    var k := last.value;
    OwnWritesApply(states[k], ops[k], l);
    LogGrows(h, states, ops, i, k, j, l);
    LeasedAppliesIff(states[j], ops[j].run, l);
  }

  lemma OwnRun(op: Op, l: Q.Lease)
    requires Own(op, l)
    ensures op.SaveLeased? && op.run.id == l.id
  {}

  lemma {:induction false} LogGrows(h: Hasher, states: seq<State>, ops: seq<Op>, i: nat, m: nat, k: nat, l: Q.Lease)
    requires i < m <= k < |ops| <= |states| && l.id in states[i].initial && Replays(h, states, ops, i, l)
    requires Own(ops[m], l) && Own(ops[k], l)
    ensures Own(ops[m], l) ==> RowFor(ops[m].run).revision <= |ops[k].run.events|
  {
    hide LeasedApplies, StartsRecovered;
  }

  /** A run whose job has ended changes only by a cancellation or a lease-less write. */
  lemma EndedJobKeepsRow(h: Hasher, s: State, op: Op, id: Id)
    requires Inv(s) && id in s.jobs.rows && id in s.runs && !Q.Live(s.jobs.rows, id)
    requires !Leaseless(op, id) && !Cancels(s, op, id)
    ensures id in Next(h, s, op).runs && Next(h, s, op).runs[id] == s.runs[id]
  {
    hide Q.Inv, Q.Allowed, HasCapacity, Sealed, Q.Next, JobsOp, SigningOp, NextInitial, Q.Current, Q.Live,
         SignedApplies;
    if op.FailExhausted? { DeadJobIsNotExhausted(s.jobs, id, s.now); }
    if op.SaveLeased? && op.run.id == id { DeadJobHasNoLease(s.jobs, op.lease.(id := id), s.now); }
  }

  lemma {:induction false} EndedJobRowStays(h: Hasher, states: seq<State>, ops: seq<Op>, id: Id, i: nat, j: nat)
    requires Trace(h, states, ops) && Inv(states[0]) && i <= j <= |ops|
    requires id in states[i].jobs.rows && id in states[i].runs && !Q.Live(states[i].jobs.rows, id)
    requires forall k :: i <= k < j ==> !Leaseless(ops[k], id) && !Cancels(states[k], ops[k], id)
    ensures id in states[j].runs && states[j].runs[id] == states[i].runs[id]
    decreases j - i
  {
    hide Inv, Next, Leaseless, Cancels;
    TraceLength(h, states, ops);
    if i < j {
      EndedJobRowStays(h, states, ops, id, i, j - 1);
      TraceKeepsInv(h, states, ops, j - 1);
      TraceStep(h, states, ops, j - 1);
      JobStaysClosed(h, states, ops, id, i, j - 1);
      EndedJobKeepsRow(h, states[j - 1], ops[j - 1], id);
    }
  }

  /** The other half: if the stored log was longer, the recovered attempt leaves nothing
      behind. When it gives up at step f its job is failed for ever, and the run row stays
      as the earlier attempt left it - not terminal, in general - until somebody cancels
      the run or writes it without a lease. */
  lemma RefusedRecoveryLeavesRow(
    h: Hasher, states: seq<State>, ops: seq<Op>, i: nat, f: nat, k: nat, l: Q.Lease, message: string)
    requires Trace(h, states, ops) && Inv(states[0]) && i < f < k <= |ops| && Reclaims(states[i], ops[i], l)
    requires l.id in states[i].initial && l.id in states[i].runs && Replays(h, states, ops, i, l)
    requires !Resumable(states[i], l.id)
    requires message != "" && ops[f] == FinishRun(l, Some(message)) && Q.Current(states[f].jobs.rows, l, states[f].now)
    requires forall m :: i < m < f ==> !LeaselessWrite(states[m], ops[m], l)
    requires forall m :: f < m < k ==> !Leaseless(ops[m], l.id) && !Cancels(states[m], ops[m], l.id)
    ensures l.id in states[k].runs && states[k].runs[l.id] == states[i].runs[l.id]
    ensures l.id in states[k].jobs.rows && states[k].jobs.rows[l.id].status == Q.Failed
  {
    hide Trace, Inv, Next, Wrote, Reclaims, Leaseless, LeaselessWrite, LeasedApplies, Q.Current, Sealed, Recovered,
         Own, Resumable, Cancels, Replays;
    TraceLength(h, states, ops);
    TraceKeepsInv(h, states, ops, i);
    TraceStep(h, states, ops, i);
    ClaimedRow(h, states[i], ops[i], l);
    var last := LastWriter(h, states, ops, l, i + 1, f);
    if last.Some? {
      var m := last.value;
      OwnWritesApply(states[m], ops[m], l);
      IssuedStays(h, states, ops, l, i + 1, m);
      CurrentThroughout(h, states, ops, l, m, f);
      RecoverySucceedsIff(h, states, ops, i, m, l);
      OwnLease(h, states, ops, i, m, l);
      assert false;
    }
    TraceStep(h, states, ops, f);
    FinishedJob(h, states[f], l, Some(message));
    JobStaysClosed(h, states, ops, l.id, f + 1, k);
    EndedJobRowStays(h, states, ops, l.id, f + 1, k);
  }

  lemma OwnLease(h: Hasher, states: seq<State>, ops: seq<Op>, i: nat, m: nat, l: Q.Lease)
    requires i < m < |ops| <= |states| && l.id in states[i].initial && Replays(h, states, ops, i, l) && Own(ops[m], l)
    ensures ops[m].lease == l
  {
    hide StartsRecovered, LeasedApplies;
  }
}
