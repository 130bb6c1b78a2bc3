/** The fenced-lease protocol that packages/runtime/src/persistence.ts uses twice: for
    evaluation jobs and for signing jobs. Each operation is one SQL statement on one
    table, evaluated at one reading of the database clock. */
module JobQueue {
  import opened Wrappers

  type Id = string

  datatype JobStatus = Queued | Running | Finished | Failed | Cancelled

  /** The columns that the protocol reads or writes. */
  datatype Job = Job(
    status: JobStatus, attempts: nat, workerId: Option<string>, token: Option<string>, lockedUntil: Option<int>,
    availableAt: int, lastError: Option<string>)

  /** What a claim hands to a worker. */
  datatype Lease = Lease(id: Id, workerId: string, token: string, leaseMs: int, attempt: nat)

  /** A table, and every lease ever issued from it. */
  datatype Queue = Queue(rows: map<Id, Job>, issued: set<Lease>)

  const MAX_ATTEMPTS := 3

  datatype Op =
    | Idle
    | Insert(id: Id)
    | Claim(workerId: string, token: string, leaseMs: int, skipped: set<Id>, pick: Option<Id>)
    | Renew(lease: Lease)
    | Finish(lease: Lease, error: Option<string>)
    | Cancel(id: Id)
    | FailExhausted(message: string)

  // ---- Guards ----

  /** status = 'running' AND worker_id = . AND lease_token = . AND locked_until > now() */
  predicate Current(rows: map<Id, Job>, l: Lease, now: int) {
    && l.id in rows
    && var j := rows[l.id];
    && j.status == Running && j.workerId == Some(l.workerId) && j.token == Some(l.token)
    && j.lockedUntil.Some? && j.lockedUntil.value > now
  }

  predicate Expired(j: Job, now: int) { j.status == Running && j.lockedUntil.Some? && j.lockedUntil.value < now }

  predicate Claimable(rows: map<Id, Job>, id: Id, now: int) {
    && id in rows
    && ((rows[id].status == Queued && rows[id].availableAt <= now) || Expired(rows[id], now))
    && rows[id].attempts < MAX_ATTEMPTS
  }

  /** ORDER BY available_at FOR UPDATE SKIP LOCKED LIMIT 1: a claimable row that no other
      transaction has locked, and no such row has been available for longer. */
  predicate Picks(rows: map<Id, Job>, now: int, skipped: set<Id>, id: Id) {
    && Claimable(rows, id, now) && id !in skipped
    && forall other :: other in rows && other !in skipped && Claimable(rows, other, now)
                       ==> rows[id].availableAt <= rows[other].availableAt
  }

  predicate Live(rows: map<Id, Job>, id: Id) { id in rows && (rows[id].status == Queued || rows[id].status == Running) }

  predicate Exhausted(j: Job, now: int) { Expired(j, now) && j.attempts >= MAX_ATTEMPTS }

  // ---- Effects ----

  function NewJob(now: int): Job { Job(Queued, 0, None, None, None, now, None) }

  function Taken(j: Job, workerId: string, token: string, leaseMs: int, now: int): Job {
    j.(status := Running, attempts := j.attempts + 1, workerId := Some(workerId), token := Some(token),
       lockedUntil := Some(now + leaseMs))
  }

  function Closed(j: Job, status: JobStatus, error: Option<string>): Job {
    j.(status := status, token := None, lockedUntil := None, lastError := error)
  }

  /** An absent or empty error message means success. */
  function Outcome(error: Option<string>): JobStatus {
    if error.Some? && error.value != "" then Failed else Finished
  }

  function LeaseOf(rows: map<Id, Job>, op: Op): Lease
    requires op.Claim? && op.pick.Some? && op.pick.value in rows
  {
    Lease(op.pick.value, op.workerId, op.token, op.leaseMs, rows[op.pick.value].attempts + 1)
  }

  function Next(q: Queue, now: int, op: Op): Queue {
    match op
    case Idle => q
    case Insert(id) => if id in q.rows then q else q.(rows := q.rows[id := NewJob(now)])
    case Claim(workerId, token, leaseMs, _, pick) =>
      if pick.None? || pick.value !in q.rows then q
      else Queue(q.rows[pick.value := Taken(q.rows[pick.value], workerId, token, leaseMs, now)],
                 q.issued + {LeaseOf(q.rows, op)})
    case Renew(l) =>
      if Current(q.rows, l, now) then
        q.(rows := q.rows[l.id := q.rows[l.id].(lockedUntil := Some(now + l.leaseMs))])
      else q
    case Finish(l, error) =>
      if Current(q.rows, l, now) then
        q.(rows := q.rows[l.id := Closed(q.rows[l.id], Outcome(error), error)])
      else q
    case Cancel(id) =>
      if Live(q.rows, id) then q.(rows := q.rows[id := Closed(q.rows[id], Cancelled, q.rows[id].lastError)]) else q
    case FailExhausted(message) => q.(rows := Swept(q.rows, now, message))
  }

  function Swept(rows: map<Id, Job>, now: int, message: string): map<Id, Job> {
    map id | id in rows :: if Exhausted(rows[id], now) then Closed(rows[id], Failed, Some(message)) else rows[id]
  }

  /** A claim takes a row that the statement may pick, or none if there is none, and
      brings a token never used before. */
  ghost predicate Allowed(q: Queue, now: int, op: Op) {
    op.Claim? ==>
      && (forall l :: l in q.issued ==> l.token != op.token)
      && (op.pick.Some? ==> Picks(q.rows, now, op.skipped, op.pick.value))
      && (op.pick.None? ==> forall id :: id in q.rows && id !in op.skipped ==> !Claimable(q.rows, id, now))
  }

  // ---- The table that executes the statements ----

  class Table {
    var rows: map<Id, Job>
    ghost var issued: set<Lease>

    ghost function Contents(): Queue
      reads this
    {
      Queue(rows, issued)
    }

    constructor ()
      ensures Contents() == Queue(map[], {})
    {
      rows, issued := map[], {};
    }

    method InsertJob(id: Id, now: int)
      modifies this
      ensures Contents() == Next(old(Contents()), now, Op.Insert(id))
      ensures rows == if id in old(rows) then old(rows)
                      else old(rows)[id := Job(Queued, 0, None, None, None, now, None)]
    {
      if id !in rows { rows := rows[id := NewJob(now)]; }
    }

    method ClaimJob(workerId: string, token: string, leaseMs: int, skipped: set<Id>, now: int)
      returns (lease: Option<Lease>)
      requires forall l :: l in issued ==> l.token != token
      modifies this
      ensures var op := Op.Claim(workerId, token, leaseMs, skipped, if lease.Some? then Some(lease.value.id) else None);
              Allowed(old(Contents()), now, op) && Contents() == Next(old(Contents()), now, op)
      ensures lease.Some? && leaseMs > 0 ==> lease.value in issued && Current(rows, lease.value, now)
      ensures lease.None? ==>
                rows == old(rows) && forall id :: id in rows && id !in skipped ==> !Claimable(rows, id, now)
      ensures lease.Some? ==>
                var id := lease.value.id;
                && id in old(rows) && id !in skipped && old(rows)[id].attempts in {0, 1, 2}
                && ((old(rows)[id].status == Queued && old(rows)[id].availableAt <= now)
                    || (old(rows)[id].status == Running && old(rows)[id].lockedUntil.Some?
                        && old(rows)[id].lockedUntil.value < now))
                && (forall other :: other in old(rows) && other !in skipped && Claimable(old(rows), other, now) ==>
                      old(rows)[id].availableAt <= old(rows)[other].availableAt)
                && lease == Some(Lease(id, workerId, token, leaseMs, old(rows)[id].attempts + 1))
                && rows == old(rows)[id := old(rows)[id].(
                                           status := Running, attempts := old(rows)[id].attempts + 1,
                                           workerId := Some(workerId), token := Some(token),
                                           lockedUntil := Some(now + leaseMs))]
    {
      var candidates := set id | id in rows && id !in skipped && Claimable(rows, id, now);
      if candidates == {} {
        forall id | id in rows && id !in skipped ensures !Claimable(rows, id, now) {
          assert id !in candidates;
        }
        return None;
      }
      var id := Earliest(rows, candidates);
      var op := Op.Claim(workerId, token, leaseMs, skipped, Some(id));
      var job := Taken(rows[id], workerId, token, leaseMs, now);
      lease := Some(Lease(id, workerId, token, leaseMs, job.attempts));
      rows := rows[id := job];
      issued := issued + {lease.value};
    }

    method RenewLease(l: Lease, now: int) returns (renewed: bool)
      modifies this
      ensures Contents() == Next(old(Contents()), now, Op.Renew(l)) && renewed == Current(old(rows), l, now)
      ensures renewed <==> && l.id in old(rows) && old(rows)[l.id].status == Running
                            && old(rows)[l.id].workerId == Some(l.workerId) && old(rows)[l.id].token == Some(l.token)
                            && old(rows)[l.id].lockedUntil.Some? && now < old(rows)[l.id].lockedUntil.value
      ensures rows == if renewed then old(rows)[l.id := old(rows)[l.id].(lockedUntil := Some(now + l.leaseMs))]
                      else old(rows)
    {
      renewed := Current(rows, l, now);
      if renewed { rows := rows[l.id := rows[l.id].(lockedUntil := Some(now + l.leaseMs))]; }
    }

    method FinishJob(l: Lease, error: Option<string>, now: int) returns (finished: bool)
      modifies this
      ensures Contents() == Next(old(Contents()), now, Op.Finish(l, error)) && finished == Current(old(rows), l, now)
      ensures finished <==> && l.id in old(rows) && old(rows)[l.id].status == Running
                             && old(rows)[l.id].workerId == Some(l.workerId) && old(rows)[l.id].token == Some(l.token)
                             && old(rows)[l.id].lockedUntil.Some? && now < old(rows)[l.id].lockedUntil.value
      ensures !finished ==> rows == old(rows)
      ensures finished ==>
                rows == old(rows)[l.id := old(rows)[l.id].(
                                          status := if error.None? || error.value == "" then Finished else Failed,
                                          token := None, lockedUntil := None, lastError := error)]
    {
      finished := Current(rows, l, now);
      if finished {
        var status := if error.Some? && error.value != "" then Failed else Finished;
        rows := rows[l.id := rows[l.id].(status := status, lockedUntil := None, token := None, lastError := error)];
      }
    }

    method CancelJob(id: Id, now: int)
      modifies this
      ensures Contents() == Next(old(Contents()), now, Op.Cancel(id))
      ensures rows == if id in old(rows) && old(rows)[id].status in {Queued, Running}
                      then old(rows)[id := old(rows)[id].(status := Cancelled, token := None, lockedUntil := None)]
                      else old(rows)
    {
      if id in rows && (rows[id].status == Queued || rows[id].status == Running) {
        rows := rows[id := rows[id].(status := Cancelled, lockedUntil := None, token := None)];
      }
    }

    method SweepExhausted(message: string, now: int) returns (swept: set<Id>)
      modifies this
      ensures Contents() == Next(old(Contents()), now, Op.FailExhausted(message))
      ensures swept == set id | id in old(rows) && Exhausted(old(rows)[id], now)
      ensures rows.Keys == old(rows).Keys
      ensures forall id :: id in rows ==>
                (id in swept <==> old(rows)[id].status == Running && old(rows)[id].lockedUntil.Some?
                                  && old(rows)[id].lockedUntil.value < now && old(rows)[id].attempts >= 3)
                && rows[id] == if id in swept then old(rows)[id].(status := Failed, token := None, lockedUntil := None,
                                                                  lastError := Some(message))
                               else old(rows)[id]
    {
      swept := set id | id in rows && Exhausted(rows[id], now);
      rows := map id | id in rows :: if id in swept then Closed(rows[id], Failed, Some(message)) else rows[id];
    }
  }

  /** The claimable row that has been available longest. */
  method Earliest(rows: map<Id, Job>, candidates: set<Id>) returns (best: Id)
    requires candidates != {} && candidates <= rows.Keys
    ensures best in candidates && forall other :: other in candidates ==>
                                    rows[best].availableAt <= rows[other].availableAt
  {
    best :| best in candidates;
    var rest := candidates - {best};
    while rest != {}
      invariant rest <= candidates && best in candidates
      invariant forall other :: other in candidates && other !in rest ==>
                  rows[best].availableAt <= rows[other].availableAt
      decreases |rest|
    {
      var next :| next in rest;
      if rows[next].availableAt < rows[best].availableAt { best := next; }
      rest := rest - {next};
    }
  }

  // ---- The invariant ----

  /** A job is running exactly when it has a token, a lock time and a holder among the
      issued leases; it is never attempted more than three times. */
  ghost predicate JobOk(q: Queue, id: Id)
    requires id in q.rows
  {
    var j := q.rows[id];
    && j.attempts <= MAX_ATTEMPTS
    && (j.status == Running <==> j.token.Some?)
    && (j.status == Running <==> j.lockedUntil.Some?)
    && (j.status == Running ==> exists l :: l in q.issued && Holds(q, l) && l.id == id)
  }

  /** l is the lease recorded on its row, whether or not it has run out. */
  ghost predicate Holds(q: Queue, l: Lease) {
    && l.id in q.rows
    && var j := q.rows[l.id];
    && j.token == Some(l.token) && j.workerId == Some(l.workerId) && j.attempts == l.attempt
  }

  ghost predicate LeaseOk(q: Queue, l: Lease) {
    && l.id in q.rows && 1 <= l.attempt <= q.rows[l.id].attempts
    && (q.rows[l.id].token == Some(l.token) ==> Holds(q, l))
  }

  ghost predicate Inv(q: Queue) {
    && (forall id :: id in q.rows ==> JobOk(q, id))
    && (forall l :: l in q.issued ==> LeaseOk(q, l))
    && (forall l, m :: l in q.issued && m in q.issued && l.token == m.token ==> l == m)
    && (forall l, m :: l in q.issued && m in q.issued && l.id == m.id && l.attempt == m.attempt ==> l == m)
  }

  lemma ClaimKeepsInv(q: Queue, now: int, op: Op)
    requires Inv(q) && Allowed(q, now, op) && op.Claim?
    ensures Inv(Next(q, now, op))
  {
    var q' := Next(q, now, op);
    if op.pick.Some? {
      var id := op.pick.value;
      var granted := LeaseOf(q.rows, op);
      assert JobOk(q, id);
      assert granted in q'.issued && Holds(q', granted);
      forall i | i in q'.rows ensures JobOk(q', i) {
        assert JobOk(q, i);
        if i != id && q.rows[i].status == Running {
          var l :| l in q.issued && Holds(q, l) && l.id == i;
          assert l in q'.issued && Holds(q', l);
        }
      }
      forall l | l in q'.issued ensures LeaseOk(q', l) {
        if l != granted { assert LeaseOk(q, l); }
      }
      forall l, m | l in q'.issued && m in q'.issued && l.id == m.id && l.attempt == m.attempt ensures l == m {
        if l in q.issued { assert LeaseOk(q, l); }
        if m in q.issued { assert LeaseOk(q, m); }
      }
    }
  }

  /** A statement that issues nothing, keeps attempts, and either leaves a row's holder
      in place or closes the row. */
  lemma FrameKeepsInv(q: Queue, q': Queue)
    requires Inv(q) && q'.issued == q.issued && q.rows.Keys <= q'.rows.Keys
    requires forall id :: id in q.rows ==>
               var j, j' := q.rows[id], q'.rows[id];
               && j'.attempts == j.attempts
               && ((j'.status == j.status && j'.token == j.token && j'.workerId == j.workerId
                    && (j'.lockedUntil.Some? <==> j.lockedUntil.Some?))
                   || (j'.status != Running && j'.token == None && j'.lockedUntil == None))
    requires forall id :: id in q'.rows && id !in q.rows ==>
               q'.rows[id].status != Running && q'.rows[id].attempts == 0 && q'.rows[id].token == None
               && q'.rows[id].lockedUntil == None
    ensures Inv(q')
  {
    forall i | i in q'.rows ensures JobOk(q', i) {
      if i in q.rows {
        assert JobOk(q, i);
        if q'.rows[i].status == Running {
          var l :| l in q.issued && Holds(q, l) && l.id == i;
          assert Holds(q', l);
        }
      }
    }
    forall l | l in q'.issued ensures LeaseOk(q', l) { assert LeaseOk(q, l); }
  }

  lemma StepKeepsInv(q: Queue, now: int, op: Op)
    requires Inv(q) && Allowed(q, now, op)
    ensures Inv(Next(q, now, op))
  {
    if op.Claim? { ClaimKeepsInv(q, now, op); } else { FrameKeepsInv(q, Next(q, now, op)); }
  }

  // ---- One step ----

  /** A claim or a successful renewal makes the lease current for exactly leaseMs from now. */
  lemma LeaseLasts(q: Queue, now: int, op: Op, l: Lease, t: int)
    requires Inv(q) && Allowed(q, now, op)
    requires (op == Renew(l) && Current(q.rows, l, now))
             || (op.Claim? && op.pick.Some? && l == LeaseOf(q.rows, op))
    ensures l in Next(q, now, op).issued || op == Renew(l)
    ensures Current(Next(q, now, op).rows, l, t) <==> t < now + l.leaseMs
  {}

  /** The timeline of a running job: before its lock time one lease may be current and
      nobody can claim it; after it no lease is current, and it can be claimed again
      or, after three attempts, be failed; at the very lock time nothing can happen. */
  lemma RunningJobTimeline(q: Queue, id: Id, t: int)
    requires Inv(q) && id in q.rows && q.rows[id].status == Running
    ensures q.rows[id].lockedUntil.Some?
    ensures (exists l :: l in q.issued && l.id == id && Current(q.rows, l, t)) <==> t < q.rows[id].lockedUntil.value
    ensures Claimable(q.rows, id, t) <==> t > q.rows[id].lockedUntil.value && q.rows[id].attempts < MAX_ATTEMPTS
    ensures Exhausted(q.rows[id], t) <==> t > q.rows[id].lockedUntil.value && q.rows[id].attempts == MAX_ATTEMPTS
  {
    assert JobOk(q, id);
    var l :| l in q.issued && Holds(q, l) && l.id == id;
    assert Current(q.rows, l, t) <==> t < q.rows[id].lockedUntil.value;
  }

  /** No two issued leases of a job pass the guard together. */
  lemma OneCurrentLease(q: Queue, l: Lease, m: Lease, now: int)
    requires Inv(q) && l in q.issued && m in q.issued && l.id == m.id
    requires Current(q.rows, l, now) && Current(q.rows, m, now)
    ensures l == m
  {}

  /** An issued lease that fails the guard still fails it after any statement and at any
      later time. */
  lemma LossSurvivesStep(q: Queue, now: int, op: Op, later: int, l: Lease)
    requires Inv(q) && Allowed(q, now, op) && now <= later && l in q.issued && !Current(q.rows, l, now)
    ensures !Current(Next(q, now, op).rows, l, later) && l in Next(q, now, op).issued
  {
    assert LeaseOk(q, l);
    if op.Claim? && op.pick.Some? && op.pick.value == l.id {
      assert Next(q, now, op).rows[l.id].token == Some(op.token);
    }
  }

  /** Attempts never fall, and a row whose job ended is never written again. */
  lemma StepIsMonotone(q: Queue, now: int, op: Op, id: Id)
    requires Inv(q) && Allowed(q, now, op) && id in q.rows
    ensures id in Next(q, now, op).rows && q.rows[id].attempts <= Next(q, now, op).rows[id].attempts
    ensures !Live(q.rows, id) ==> Next(q, now, op).rows[id] == q.rows[id]
  {
    assert JobOk(q, id);
  }

  /** A job whose last attempt has run out is touched by nothing but a sweep or a
      cancellation of it. */
  lemma SpentStep(q: Queue, now: int, op: Op, id: Id)
    requires Inv(q) && Allowed(q, now, op) && id in q.rows && Exhausted(q.rows[id], now)
    requires !op.FailExhausted? && op != Cancel(id)
    ensures id in Next(q, now, op).rows && Next(q, now, op).rows[id] == q.rows[id]
  {}

  // ---- Whole runs ----

  /** queues[i] is the table before operation i, which runs at clocks[i]. */
  ghost predicate Trace(queues: seq<Queue>, clocks: seq<int>, ops: seq<Op>) {
    && |queues| == |ops| + 1 && |clocks| == |ops| + 1
    && (forall i :: 0 <= i < |ops| ==> clocks[i] <= clocks[i + 1])
    && (forall i :: 0 <= i < |ops| ==> Allowed(queues[i], clocks[i], ops[i]))
    && (forall i :: 0 <= i < |ops| ==> queues[i + 1] == Next(queues[i], clocks[i], ops[i]))
  }

  lemma {:induction false} TraceInv(queues: seq<Queue>, clocks: seq<int>, ops: seq<Op>, i: nat)
    requires Trace(queues, clocks, ops) && Inv(queues[0]) && i <= |ops|
    ensures Inv(queues[i])
  {
    if i > 0 {
      TraceInv(queues, clocks, ops, i - 1);
      StepKeepsInv(queues[i - 1], clocks[i - 1], ops[i - 1]);
    }
  }

  /** Lease loss is permanent: whatever statements follow, in any order, a lease that
      failed the guard once never passes it again. */
  lemma {:induction false} LossIsPermanent(queues: seq<Queue>, clocks: seq<int>, ops: seq<Op>, l: Lease, i: nat, j: nat)
    requires Trace(queues, clocks, ops) && Inv(queues[0]) && i <= j <= |ops|
    requires l in queues[i].issued && !Current(queues[i].rows, l, clocks[i])
    ensures l in queues[j].issued && !Current(queues[j].rows, l, clocks[j])
    decreases j - i
  {
    if i < j {
      TraceInv(queues, clocks, ops, i);
      LossSurvivesStep(queues[i], clocks[i], ops[i], clocks[i + 1], l);
      LossIsPermanent(queues, clocks, ops, l, i + 1, j);
    }
  }

  lemma {:induction false} AttemptsNeverFall(queues: seq<Queue>, clocks: seq<int>, ops: seq<Op>, id: Id, i: nat, j: nat)
    requires Trace(queues, clocks, ops) && Inv(queues[0]) && i <= j <= |ops| && id in queues[i].rows
    ensures id in queues[j].rows && queues[i].rows[id].attempts <= queues[j].rows[id].attempts <= MAX_ATTEMPTS
    ensures !Live(queues[i].rows, id) ==> queues[j].rows[id] == queues[i].rows[id]
    decreases j - i
  {
    TraceInv(queues, clocks, ops, i);
    if i < j {
      StepIsMonotone(queues[i], clocks[i], ops[i], id);
      AttemptsNeverFall(queues, clocks, ops, id, i + 1, j);
    } else {
      assert JobOk(queues[i], id);
    }
  }

  /** Leases of one job pass the guard in the order of their attempts: if l passes at
      step i and m at a later step j, m is l itself or belongs to a later attempt, and
      in that case l never passes again from step j on. */
  lemma GuardFollowsAttempts(queues: seq<Queue>, clocks: seq<int>, ops: seq<Op>, l: Lease, m: Lease, i: nat, j: nat)
    requires Trace(queues, clocks, ops) && Inv(queues[0]) && i <= j <= |ops| && l.id == m.id
    requires l in queues[i].issued && Current(queues[i].rows, l, clocks[i])
    requires m in queues[j].issued && Current(queues[j].rows, m, clocks[j])
    ensures l.attempt <= m.attempt
    ensures l != m ==> l.attempt < m.attempt
    ensures l != m ==> forall k :: j <= k <= |ops| ==> !Current(queues[k].rows, l, clocks[k])
  {
    TraceInv(queues, clocks, ops, i);
    TraceInv(queues, clocks, ops, j);
    assert LeaseOk(queues[i], l) && LeaseOk(queues[j], m);
    AttemptsNeverFall(queues, clocks, ops, l.id, i, j);
    IssuedGrows(queues, clocks, ops, l, i, j);
    if l != m {
      if Current(queues[j].rows, l, clocks[j]) { OneCurrentLease(queues[j], l, m, clocks[j]); }
      forall k | j <= k <= |ops| ensures !Current(queues[k].rows, l, clocks[k]) {
        LossIsPermanent(queues, clocks, ops, l, j, k);
      }
    }
  }

  lemma {:induction false} IssuedGrows(queues: seq<Queue>, clocks: seq<int>, ops: seq<Op>, l: Lease, i: nat, j: nat)
    requires Trace(queues, clocks, ops) && i <= j <= |ops| && l in queues[i].issued
    ensures l in queues[j].issued
    decreases j - i
  {
    if i < j { IssuedGrows(queues, clocks, ops, l, i + 1, j); }
  }

  /** At most one finish per job ever succeeds, whichever lease it carries. */
  lemma FinishesAtMostOnce(queues: seq<Queue>, clocks: seq<int>, ops: seq<Op>, i: nat, j: nat)
    requires Trace(queues, clocks, ops) && Inv(queues[0]) && i < j < |ops|
    requires ops[i].Finish? && Current(queues[i].rows, ops[i].lease, clocks[i])
    requires ops[j].Finish? && ops[j].lease.id == ops[i].lease.id
    ensures !Current(queues[j].rows, ops[j].lease, clocks[j])
  {
    AttemptsNeverFall(queues, clocks, ops, ops[i].lease.id, i + 1, j);
  }

  // ---- How a row came to be as it is ----

  /** The statement run on `before` at `now` that gave a job its present status. */
  ghost predicate Explains(before: Queue, now: int, op: Op, id: Id, j: Job) {
    match j.status
    case Queued => op == Insert(id) && j == Job(Queued, 0, None, None, None, now, None)
    case Running =>
      && op.Claim? && op.pick == Some(id) && id in before.rows && before.rows[id].status in {Queued, Running}
      && j.workerId == Some(op.workerId) && j.token == Some(op.token) && j.attempts == before.rows[id].attempts + 1
    case Finished => op.Finish? && (op.error.None? || op.error.value == "") && EndedBy(before, now, op, id, j)
    case Failed =>
      || (op.Finish? && op.error.Some? && op.error.value != "" && EndedBy(before, now, op, id, j))
      || (&& op.FailExhausted? && j.lastError == Some(op.message) && id in before.rows
          && before.rows[id].status == Running && before.rows[id].attempts == 3
          && before.rows[id].lockedUntil.Some? && before.rows[id].lockedUntil.value < now)
    case Cancelled =>
      op == Cancel(id) && id in before.rows && before.rows[id].status in {Queued, Running}
      && j.lastError == before.rows[id].lastError
  }

  /** A finish by the worker that still held the job, with this error. */
  ghost predicate EndedBy(before: Queue, now: int, op: Op, id: Id, j: Job)
    requires op.Finish?
  {
    && op.lease.id == id && id in before.rows && op.error == j.lastError
    && before.rows[id].status == Running && before.rows[id].workerId == Some(op.lease.workerId)
    && before.rows[id].token == Some(op.lease.token)
    && before.rows[id].lockedUntil.Some? && before.rows[id].lockedUntil.value > now
  }

  lemma ExplainsStep(q: Queue, now: int, op: Op, id: Id)
    requires Inv(q) && Allowed(q, now, op) && id in Next(q, now, op).rows
    ensures var j' := Next(q, now, op).rows[id];
            || Explains(q, now, op, id, j')
            || (id in q.rows && q.rows[id].(lockedUntil := j'.lockedUntil) == j'
                && (q.rows[id].lockedUntil == j'.lockedUntil || j'.status == Running))
  {
    if id in q.rows { assert JobOk(q, id); }
    match op
    case Idle =>
    case Insert(_) =>
    case Claim(_, _, _, _, _) =>
    case Renew(_) =>
    case Finish(l, error) =>
      if id in q.rows && !(l.id == id && Current(q.rows, l, now)) { assert Next(q, now, op).rows[id] == q.rows[id]; }
    case Cancel(_) =>
    case FailExhausted(message) =>
      if id in q.rows && Exhausted(q.rows[id], now) {
        assert Next(q, now, op).rows[id] == Closed(q.rows[id], Failed, Some(message));
      } else {
        assert Next(q, now, op).rows[id] == q.rows[id];
      }
  }

  /** From an empty table on, over every interleaving: each job was brought into its
      present status by the one statement that is meant to. It is queued since its insert,
      running since a claim by the worker whose token it shows, finished by a worker that
      held it and reported no error, failed by one that reported an error or by a sweep
      after its third lease ran out, and cancelled out of the queue or out of a run. */
  lemma {:induction false} EveryStatusIsExplained(
    queues: seq<Queue>, clocks: seq<int>, ops: seq<Op>, i: nat, id: Id)
    requires Trace(queues, clocks, ops) && queues[0] == Queue(map[], {}) && i <= |ops| && id in queues[i].rows
    ensures exists k :: 0 <= k < i && Explains(queues[k], clocks[k], ops[k], id, queues[i].rows[id])
  {
    hide Next, Allowed, JobOk, LeaseOk, Explains;
    if i > 0 {
      TraceInv(queues, clocks, ops, i - 1);
      ExplainsStep(queues[i - 1], clocks[i - 1], ops[i - 1], id);
      if !Explains(queues[i - 1], clocks[i - 1], ops[i - 1], id, queues[i].rows[id]) {
        EveryStatusIsExplained(queues, clocks, ops, i - 1, id);
        var k :| 0 <= k < i - 1 && Explains(queues[k], clocks[k], ops[k], id, queues[i - 1].rows[id]);
        SameExplanation(queues[k], clocks[k], ops[k], id, queues[i - 1].rows[id], queues[i].rows[id]);
      }
    }
  }

  lemma SameExplanation(q: Queue, now: int, op: Op, id: Id, j: Job, j': Job)
    requires Explains(q, now, op, id, j) && j.(lockedUntil := j'.lockedUntil) == j'
    requires j.lockedUntil == j'.lockedUntil || j'.status == Running
    ensures Explains(q, now, op, id, j')
  {}

  /** A claim comes back empty only when there is no work: every job it was free to look at
      has ended, or runs under a lock time not yet passed, or has had three attempts. */
  lemma EmptyClaimMeansNoWork(queues: seq<Queue>, clocks: seq<int>, ops: seq<Op>, i: nat, id: Id)
    requires Trace(queues, clocks, ops) && queues[0] == Queue(map[], {}) && i < |ops|
    requires ops[i].Claim? && ops[i].pick == None && id in queues[i].rows && id !in ops[i].skipped
    ensures var j := queues[i].rows[id];
            || j.status in {Finished, Failed, Cancelled}
            || (j.status == Running && j.lockedUntil.Some? && (j.lockedUntil.value >= clocks[i] || j.attempts == 3))
  {
    EveryStatusIsExplained(queues, clocks, ops, i, id);
    var k :| 0 <= k < i && Explains(queues[k], clocks[k], ops[k], id, queues[i].rows[id]);
    ClocksOrdered(queues, clocks, ops, k, i);
    TraceInv(queues, clocks, ops, i);
    assert JobOk(queues[i], id);
    assert Allowed(queues[i], clocks[i], ops[i]);
  }

  lemma {:induction false} ClocksOrdered(queues: seq<Queue>, clocks: seq<int>, ops: seq<Op>, i: nat, j: nat)
    requires Trace(queues, clocks, ops) && i <= j <= |ops|
    ensures clocks[i] <= clocks[j]
    decreases j - i
  {
    if i < j { ClocksOrdered(queues, clocks, ops, i + 1, j); }
  }
}
