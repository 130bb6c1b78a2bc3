/** The signing job and the signer together: processNextSigningJob of
    packages/runtime/src/index.ts on the store of packages/runtime/src/persistence.ts,
    and from whom a saved run is safe. */
module Signing {
  import opened Wrappers
  import opened Records
  import opened Hashing
  import opened EventChain
  import opened Persistence
  import Bundle
  import Signer
  import Q = JobQueue

  // ---- From whom a signed run is safe ----

  /** Another signer may still come: the job has not ended and has attempts left. */
  predicate Open(q: Q.Queue, id: Id) { Q.Live(q.rows, id) && q.rows[id].attempts < Q.MAX_ATTEMPTS }

  /** Nobody else holds the job of l: its row has no token, or l's. */
  predicate NoOtherHolder(q: Q.Queue, l: Q.Lease) {
    l.id in q.rows && (q.rows[l.id].token == None || q.rows[l.id].token == Some(l.token))
  }

  lemma ClosedStep(q: Q.Queue, now: int, op: Q.Op, l: Q.Lease)
    requires Q.Inv(q) && Q.Allowed(q, now, op) && NoOtherHolder(q, l) && !Open(q, l.id)
    ensures NoOtherHolder(Q.Next(q, now, op), l) && !Open(Q.Next(q, now, op), l.id)
  {
    Q.StepIsMonotone(q, now, op, l.id);
    assert Q.JobOk(q, l.id);
  }

  lemma {:induction false} StaysClosed(h: Hasher, states: seq<State>, ops: seq<Op>, l: Q.Lease, i: nat)
    requires Trace(h, states, ops) && Inv(states[0]) && i <= |ops|
    requires NoOtherHolder(states[0].signing, l) && !Open(states[0].signing, l.id)
    ensures NoOtherHolder(states[i].signing, l) && !Open(states[i].signing, l.id)
  {
    hide Inv, Next, Allowed, Q.Next, Q.Allowed, Q.Inv, NoOtherHolder, Open;
    if i > 0 {
      StaysClosed(h, states, ops, l, i - 1);
      TraceKeepsInv(h, states, ops, i - 1);
      InvOfQueues(states[i - 1]);
      TraceStep(h, states, ops, i - 1);
      QueueSteps(h, states[i - 1], ops[i - 1]);
      ClosedStep(states[i - 1].signing, states[i - 1].now, SigningOp(states[i - 1], ops[i - 1]), l);
    }
  }

  lemma HolderAlone(s: State, run: StoredRun, l: Q.Lease, m: Q.Lease)
    requires NoOtherHolder(s.signing, l) && run.id == l.id && m.token != l.token
    ensures !SignedApplies(s, run, m)
  {}

  /** Over every interleaving from a store where nobody else holds the job and no other
      signer may come, no signed write of the run under another token is accepted. */
  lemma SafeFromOtherSigners(
    h: Hasher, states: seq<State>, ops: seq<Op>, l: Q.Lease, i: nat, run: StoredRun, m: Q.Lease)
    requires Trace(h, states, ops) && Inv(states[0]) && i <= |ops|
    requires NoOtherHolder(states[0].signing, l) && !Open(states[0].signing, l.id)
    requires run.id == l.id && m.token != l.token
    ensures !SignedApplies(states[i], run, m)
  {
    StaysClosed(h, states, ops, l, i);
    HolderAlone(states[i], run, l, m);
  }

  // ---- How another signer comes ----

  function Later(x: int, y: int): int { if x >= y then x else y }

  /** Milliseconds until the job can be claimed. */
  function Wait(q: Q.Queue, id: Id, now: int): nat
    requires id in q.rows
  {
    var j := q.rows[id];
    Later(0, Later(j.availableAt, if j.lockedUntil.Some? then j.lockedUntil.value + 1 else now) - now)
  }

  lemma OpenBecomesClaimable(q: Q.Queue, id: Id, now: int)
    requires Q.Inv(q) && Open(q, id)
    ensures Q.Claimable(q.rows, id, now + Wait(q, id, now))
  {
    assert Q.JobOk(q, id);
  }

  function Takeover(s: State, id: Id, worker: string, token: string): Op {
    ClaimSigning(worker, token, 1, s.signing.rows.Keys - {id}, Some(id))
  }

  lemma TakeoverStep(h: Hasher, s: State, id: Id, worker: string, token: string, run: StoredRun)
    requires Q.Claimable(s.signing.rows, id, s.now) && id in s.runs && run.id == id
    requires forall k :: k in s.signing.issued ==> k.token != token
    ensures Allowed(s, Takeover(s, id, worker, token))
    ensures SignedApplies(Next(h, s, Takeover(s, id, worker, token)), run,
                          Q.Lease(id, worker, token, 1, s.signing.rows[id].attempts + 1))
  {
    hide NextRuns, JobsOp, NextInitial;
    var t := Next(h, s, Takeover(s, id, worker, token));
    TakenRow(s.signing, s.now, id, worker, token);
    assert t.runs == s.runs by { SameRuns(h, s, id, worker, token); }
    AllowedIdle(s, id, worker, token);
  }

  lemma TakenRow(q: Q.Queue, now: int, id: Id, worker: string, token: string)
    requires Q.Claimable(q.rows, id, now) && forall k :: k in q.issued ==> k.token != token
    ensures var op := Q.Claim(worker, token, 1, q.rows.Keys - {id}, Some(id));
            && Q.Allowed(q, now, op)
            && Q.Next(q, now, op).rows == q.rows[id := Q.Taken(q.rows[id], worker, token, 1, now)]
  {}

  lemma SameRuns(h: Hasher, s: State, id: Id, worker: string, token: string)
    ensures NextRuns(h, s, Takeover(s, id, worker, token)) == s.runs
  {}

  lemma AllowedIdle(s: State, id: Id, worker: string, token: string)
    ensures Q.Allowed(s.jobs, s.now, JobsOp(s, Takeover(s, id, worker, token)))
  {}

  /** While another signer may come, waiting and one claim let one with any fresh token
      overwrite the run. */
  lemma OtherSignerOverwrites(h: Hasher, s: State, id: Id, worker: string, token: string, run: StoredRun)
    returns (states: seq<State>, ops: seq<Op>, m: Q.Lease)
    requires Inv(s) && Open(s.signing, id) && run.id == id
    requires forall k :: k in s.signing.issued ==> k.token != token
    ensures |states| == 4 && |ops| == 3 && Trace(h, states, ops) && states[0] == s
    ensures m.token == token && ops[2] == SaveSigned(run, m) && SignedApplies(states[2], run, m)
  {
    hide Next, Allowed, Open, Wait, SignedApplies, Q.Claimable;
    var waiting := Tick(WaitFor(s, id));
    OpenRun(s, id);
    OpenBecomesClaimable(s.signing, id, s.now);
    WaitStep(h, s, WaitFor(s, id));
    var s1 := Next(h, s, waiting);
    var taking := Takeover(s1, id, worker, token);
    TakeoverStep(h, s1, id, worker, token, run);
    var s2 := Next(h, s1, taking);
    m := Q.Lease(id, worker, token, 1, s1.signing.rows[id].attempts + 1);
    SaveAllowed(s2, run, m);
    states, ops := [s, s1, s2, Next(h, s2, SaveSigned(run, m))], [waiting, taking, SaveSigned(run, m)];
  }

  function WaitFor(s: State, id: Id): nat { if id in s.signing.rows then Wait(s.signing, id, s.now) else 0 }

  lemma OpenRun(s: State, id: Id)
    requires Inv(s) && Open(s.signing, id)
    ensures id in s.runs && id in s.signing.rows && Q.Inv(s.signing)
  {}

  lemma WaitStep(h: Hasher, s: State, millis: nat)
    ensures Allowed(s, Tick(millis)) && Next(h, s, Tick(millis)) == s.(now := s.now + millis)
  {}

  lemma SaveAllowed(s: State, run: StoredRun, m: Q.Lease)
    ensures Allowed(s, SaveSigned(run, m))
  {}

  // ---- Exactly when ----

  /** Some continuation of s ends with an accepted write of run by another signer. */
  ghost predicate CanBeOverwritten(h: Hasher, s: State, l: Q.Lease, run: StoredRun) {
    exists states, ops, m: Q.Lease :: Overwrites(h, s, l, run, states, ops, m)
  }

  ghost predicate Overwrites(
    h: Hasher, s: State, l: Q.Lease, run: StoredRun, states: seq<State>, ops: seq<Op>, m: Q.Lease)
  {
    && ops != [] && Trace(h, states, ops) && states[0] == s && m.token != l.token
    && ops[|ops| - 1] == SaveSigned(run, m) && SignedApplies(states[|ops| - 1], run, m)
  }

  /** A token longer than all in use. */
  lemma {:induction false} FreshToken(used: set<string>) returns (token: string)
    ensures forall t :: t in used ==> |t| < |token|
    decreases used
  {
    if used == {} { return "a"; }
    var t :| t in used;
    var shorter := FreshToken(used - {t});
    token := shorter + t + "a";
  }

  /** In any store that keeps the invariant and where nobody else holds the job: another
      signer can overwrite the run exactly when the job is queued or running and has
      fewer than three attempts. Finished, failed, cancelled and spent jobs are safe. */
  lemma OverwritableIff(h: Hasher, s: State, l: Q.Lease, run: StoredRun)
    requires Inv(s) && NoOtherHolder(s.signing, l) && run.id == l.id
    ensures CanBeOverwritten(h, s, l, run) <==> Open(s.signing, l.id)
  {
    hide Inv, Open, NoOtherHolder, SignedApplies, Trace;
    if Open(s.signing, l.id) {
      var used := (set k | k in s.signing.issued :: k.token) + {l.token};
      var token := FreshToken(used);
      assert forall k :: k in s.signing.issued ==> k.token in used;
      var states, ops, m := OtherSignerOverwrites(h, s, l.id, "", token, run);
      assert Overwrites(h, s, l, run, states, ops, m);
    } else if CanBeOverwritten(h, s, l, run) {
      var states, ops, m :| Overwrites(h, s, l, run, states, ops, m);
      SafeFromOtherSigners(h, states, ops, l, |ops| - 1, run, m);
      assert false;
    }
  }

  // ---- What the outcome of the statements can be ----

  /** The four statements of one signer, with anything in between: the save at step i, the
      finish at step j, and, where one of these failed, the rejection at step k and its
      finish at step n. If the finish succeeds so did the save, and no signed write of the
      run is ever accepted again. If it fails, the rejection and its finish do nothing. */
  lemma SignerOutcome(
    h: Hasher, states: seq<State>, ops: seq<Op>, i: nat, j: nat, l: Q.Lease, signed: StoredRun)
    requires Trace(h, states, ops) && Inv(states[0]) && i < j < |ops| && l in states[i].signing.issued
    requires ops[i] == SaveSigned(signed, l) && signed.id == l.id && ops[j] == FinishSigning(l, None)
    ensures var saves := SignedApplies(states[i], signed, l);
            var finishes := Q.Current(states[j].signing.rows, l, states[j].now);
            && (finishes ==> saves)
            && (finishes ==> forall t, run: StoredRun, m: Q.Lease ::
                               j < t <= |ops| && run.id == l.id ==> !SignedApplies(states[t], run, m))
            && (!finishes ==> forall k :: j < k < |ops| && ByThisSigner(ops[k], l) ==> states[k + 1] == states[k])
  {
    hide *;
    TraceLength(h, states, ops);
    if Q.Current(states[j].signing.rows, l, states[j].now) {
      SigningCurrentThroughout(h, states, ops, l, i, j);
      IssuedHasRun(h, states, ops, i, l);
      CurrentSignerSaves(states[i], signed, l);
      forall t, run: StoredRun, m: Q.Lease | j < t <= |ops| && run.id == l.id
        ensures !SignedApplies(states[t], run, m)
      {
        FinishedSigningIsFinal(h, states, ops, j, t, l, None);
      }
    } else {
      SigningIssuedStays(h, states, ops, l, i, j);
      forall k | j < k < |ops| && ByThisSigner(ops[k], l) ensures states[k + 1] == states[k] {
        SignerStep(ops[k], l);
        LostSigningLeaseDoesNothing(h, states, ops, j, k, l);
      }
    }
  }

  predicate ByThisSigner(op: Op, l: Q.Lease) {
    (op.FinishSigning? && op.lease == l) || (op.SaveSigned? && op.lease == l && op.run.id == l.id)
  }

  lemma SignerStep(op: Op, l: Q.Lease)
    requires ByThisSigner(op, l)
    ensures (op.FinishSigning? && op.lease == l) || (op.SaveSigned? && op.lease == l && op.run.id == l.id)
  {}

  lemma CurrentSignerSaves(s: State, run: StoredRun, l: Q.Lease)
    requires run.id == l.id && l.id in s.runs && Q.Current(s.signing.rows, l, s.now)
    ensures SignedApplies(s, run, l)
  {}

  lemma IssuedHasRun(h: Hasher, states: seq<State>, ops: seq<Op>, i: nat, l: Q.Lease)
    requires Trace(h, states, ops) && Inv(states[0]) && i <= |ops| && l in states[i].signing.issued
    ensures l.id in states[i].runs
  {
    hide Trace, Inv;
    TraceLength(h, states, ops);
    TraceKeepsInv(h, states, ops, i);
    IssuedRunExists(states[i], l);
  }

  lemma IssuedRunExists(s: State, l: Q.Lease)
    requires Inv(s) && l in s.signing.issued
    ensures l.id in s.runs
  {
    assert Q.LeaseOk(s.signing, l);
  }

  lemma SigningIssuedStays(h: Hasher, states: seq<State>, ops: seq<Op>, l: Q.Lease, i: nat, j: nat)
    requires Trace(h, states, ops) && i <= j <= |ops| && l in states[i].signing.issued
    ensures l in states[j].signing.issued
  {
    hide *;
    QueuesFollowProtocol(h, states, ops);
    TraceLength(h, states, ops);
    Q.IssuedGrows(SigningQueues(states), Clocks(states), QueueOps(states, ops, false), l, i, j);
  }

  lemma SigningCurrentThroughout(h: Hasher, states: seq<State>, ops: seq<Op>, l: Q.Lease, i: nat, j: nat)
    requires Trace(h, states, ops) && Inv(states[0]) && i <= j <= |ops| && l in states[i].signing.issued
    requires Q.Current(states[j].signing.rows, l, states[j].now)
    ensures Q.Current(states[i].signing.rows, l, states[i].now)
  {
    hide *;
    QueuesFollowProtocol(h, states, ops);
    TraceLength(h, states, ops);
    InvOfQueues(states[0]);
    if !Q.Current(states[i].signing.rows, l, states[i].now) {
      Q.LossIsPermanent(SigningQueues(states), Clocks(states), QueueOps(states, ops, false), l, i, j);
    }
  }

  // ---- The signer on the store ----

  /** How a run in memory is stored: the parts that the store does not look into are
      packed together. */
  datatype Packing = Packing(
    cancelled: bool, cancelTokenHash: string,
    pack: (Option<Signer.Pending>, Option<Report>, Option<Bundle.EvidenceBundle>) -> Json)

  function Stored(
    p: Packing, id: Id, state: PipelineState, events: seq<RunEvent>, error: Option<string>,
    pending: Option<Signer.Pending>, report: Option<Report>, bundle: Option<Bundle.EvidenceBundle>): StoredRun
  {
    StoredRun(id, state, events, p.cancelled, p.cancelTokenHash, error, p.pack(pending, report, bundle))
  }

  predicate SignerHolds(s: State, l: Q.Lease) { l.id in s.runs && Q.Current(s.signing.rows, l, s.now) }

  /** A signed write and the finish of its job, right after each other. */
  function SavedAndFinished(h: Hasher, s: State, run: StoredRun, l: Q.Lease, error: Option<string>): State {
    Next(h, Next(h, s, SaveSigned(run, l)), FinishSigning(l, error))
  }

  lemma SaveThenFinish(h: Hasher, s: State, run: StoredRun, l: Q.Lease, error: Option<string>)
    requires run.id == l.id
    ensures SignedApplies(s, run, l) <==> SignerHolds(s, l)
    ensures SignerHolds(s, l) ==> SignerHolds(Next(h, s, SaveSigned(run, l)), l)
    ensures l.id in s.runs && !SignerHolds(s, l) ==> SavedAndFinished(h, s, run, l, error) == s
    ensures !SignerHolds(s, l) ==> Next(h, s, SaveSigned(run, l)) == s
    ensures SignerHolds(s, l) ==>
              var t := SavedAndFinished(h, s, run, l, error);
              && t.runs == s.runs[l.id := RowFor(run)] && l.id in t.signing.rows
              && t.signing.rows[l.id].status == Q.Outcome(error)
  {
    hide Q.Current;
  }

  /** processNextSigningJob from the loaded run on, with nobody in between: the run
      completes exactly if its report validates and the lease is current. Under a current
      lease the store then holds exactly the run as it ended, and the job has ended with
      it; otherwise the store is untouched. */
  method ProcessSigningJob(
    env: Bundle.Env, me: Signer.Identity, store: Store, run: Signer.Run, lease: Q.Lease, p: Packing, at: string,
    issuedAt: string, describe: Option<Signer.Refusal> -> string) returns (completed: bool, error: Option<string>)
    requires store.Valid() && run.id == lease.id && run.id in store.runs
    modifies run, store, store.signing
    ensures completed <==>
              && old(run.pending).Some?
              && Signer.Validate(env, me.provenance, old(run.pending).value.report).None?
              && SignerHolds(old(store.Contents()), lease)
    ensures if completed then error == None
            && run.Finalized(env, me, old(run.pending).value, old(run.events), at, issuedAt)
            else error.Some? && run.Rejected()
    ensures !SignerHolds(old(store.Contents()), lease) ==> store.Contents() == old(store.Contents())
    ensures SignerHolds(old(store.Contents()), lease) ==>
              store.Contents() == SavedAndFinished(
                env.h, old(store.Contents()),
                Stored(p, run.id, run.state, run.events, error, run.pending, run.report, run.bundle), lease, error)
  {
    hide Signer.Validate, Next, Q.Current, SignedApplies, Signer.SignedEvents, Signer.SignedBundle;
    ghost var s := store.Contents();
    var refusal := run.FinalizePendingRun(env, me, at, issuedAt);
    completed, error := false, None;
    var lost := false;
    if refusal.None? {
      var signed := Stored(p, run.id, run.state, run.events, None, run.pending, run.report, run.bundle);
      SaveThenFinish(env.h, s, signed, lease, None);
      lost := store.SaveSignedRun(env.h, signed, lease);
      if !lost { completed := store.FinishSigningJob(env.h, lease, None); }
    }
    if !completed {
      error := Some(describe(refusal));
      run.RejectPendingRun(env.h, at, error.value);
      var rejected := Stored(p, run.id, run.state, run.events, error, run.pending, run.report, run.bundle);
      SaveThenFinish(env.h, s, rejected, lease, error);
      var _ := store.SaveSignedRun(env.h, rejected, lease);
      var _ := store.FinishSigningJob(env.h, lease, error);
    }
  }
}
