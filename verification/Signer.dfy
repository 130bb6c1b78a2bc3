/** The dedicated signer of packages/runtime/src/index.ts: it re-validates an unsigned
    report, appends its own events and issues the receipt. */
module Signer {
  import opened Wrappers
  import opened Records
  import opened Hashing
  import opened EventChain
  import opened Bundle
  import EvidenceRoot
  import Scoring

  /** The signer's own configuration: what it expects of the evaluator, the public key it
      publishes, the key pair it signs with, and whether an anchor is configured. */
  datatype Identity = Identity(
    provenance: Provenance, publishedKey: string, publicKey: string, sign: Payload -> string,
    attestation: AttachmentStatus, anchorLabel: string, anchorMessage: string)

  datatype Pending = Pending(report: Report, mode: string)

  datatype Refusal =
    | MissingPayload | PlanHashMismatch | SeedMismatch | ProvenanceMismatch | DuplicateIdentifiers
    | DanglingObservations | MissingObservation | RecomputationFailed

  function TrialIds(trials: seq<Trial>): set<string> { set t | t in trials :: t.id }
  function EvidenceIds(items: seq<EvidenceItem>): set<string> { set e | e in items :: e.id }

  predicate Grounded(r: Report, o: Observation) {
    && o.trialId in TrialIds(r.plan.trials)
    && forall i :: 0 <= i < |o.evidenceIds| ==> o.evidenceIds[i] in EvidenceIds(r.evidence)
  }

  predicate EveryTrialObserved(trials: seq<Trial>, observations: seq<Observation>) {
    forall i :: 0 <= i < |trials| ==> FindObservation(observations, trials[i].id).Some?
  }

  /** The first objection to a pending report, if any. */
  function Validate(env: Env, expected: Provenance, r: Report): Option<Refusal> {
    if env.h.json(VPlan(r.plan)) != r.planHash then Some(PlanHashMismatch)
    else if r.seedReveal.None? || r.seedReveal.value == ""
            || env.h.json(VSeed(r.seedReveal.value, r.runId)) != r.plan.seedCommitment then Some(SeedMismatch)
    else if r.provenance.None? || env.h.json(VProvenance(r.provenance.value)) != env.h.json(VProvenance(expected)) then
      Some(ProvenanceMismatch)
    else if |Scoring.ClaimIds(r.claims)| != |r.claims| || |TrialIds(r.plan.trials)| != |r.plan.trials|
            || |EvidenceIds(r.evidence)| != |r.evidence| then Some(DuplicateIdentifiers)
    else if |r.observations| != |r.plan.trials|
            || exists i :: 0 <= i < |r.observations| && !Grounded(r, r.observations[i]) then Some(DanglingObservations)
    else if !EveryTrialObserved(r.plan.trials, r.observations) then Some(MissingObservation)
    else if !Deterministic(env, r) then Some(RecomputationFailed)
    else None
  }

  // ---- What acceptance says about the observations ----

  predicate Distinct(ids: seq<string>) { forall i, j :: 0 <= i < j < |ids| ==> ids[i] != ids[j] }

  /** Each trial has exactly one observation and each observation exactly one trial. */
  ghost predicate OneToOne(r: Report) {
    var trials, observed := TrialIdList(r.plan.trials), ObservedIdList(r.observations);
    && |trials| == |observed| && Distinct(trials) && Distinct(observed)
    && forall x :: x in trials <==> x in observed
  }

  function Elements(ids: seq<string>): set<string> { set x | x in ids }

  lemma {:induction false} Pigeonhole(ids: seq<string>)
    ensures |Elements(ids)| <= |ids|
    ensures |Elements(ids)| == |ids| <==> Distinct(ids)
    decreases |ids|
  {
    if ids != [] {
      var front, last := ids[..|ids| - 1], ids[|ids| - 1];
      Pigeonhole(front);
      if last in front {
        assert Elements(ids) == Elements(front);
        var i :| 0 <= i < |front| && front[i] == last;
        assert ids[i] == ids[|ids| - 1];
      } else {
        assert Elements(ids) == Elements(front) + {last};
        assert forall i :: 0 <= i < |front| ==> ids[i] == front[i];
      }
    } else {
      assert Elements(ids) == {};
    }
  }

  function TrialIdList(trials: seq<Trial>): (ids: seq<string>)
    ensures |ids| == |trials| && forall i :: 0 <= i < |ids| ==> ids[i] == trials[i].id
  {
    if trials == [] then [] else [trials[0].id] + TrialIdList(trials[1..])
  }

  function ObservedIdList(observations: seq<Observation>): (ids: seq<string>)
    ensures |ids| == |observations| && forall i :: 0 <= i < |ids| ==> ids[i] == observations[i].trialId
  {
    if observations == [] then [] else [observations[0].trialId] + ObservedIdList(observations[1..])
  }

  lemma ValidatedFacts(env: Env, expected: Provenance, r: Report)
    requires Validate(env, expected, r).None?
    ensures env.h.json(VPlan(r.plan)) == r.planHash && r.provenance.Some? && Deterministic(env, r)
    ensures r.seedReveal.Some? && r.seedReveal.value != ""
    ensures env.h.json(VSeed(r.seedReveal.value, r.runId)) == r.plan.seedCommitment
    ensures |TrialIds(r.plan.trials)| == |r.plan.trials| == |r.observations|
    ensures EveryTrialObserved(r.plan.trials, r.observations)
    ensures forall j :: 0 <= j < |r.observations| ==> r.observations[j].trialId in TrialIds(r.plan.trials)
  {
    hide Deterministic, EveryTrialObserved;
    forall j | 0 <= j < |r.observations| ensures r.observations[j].trialId in TrialIds(r.plan.trials) {
      assert Grounded(r, r.observations[j]);
    }
  }

  /** A list of distinct names and an equally long list with the same members. */
  lemma Correspond(trials: seq<string>, observed: seq<string>)
    requires |trials| == |observed| == |Elements(trials)|
    requires forall x :: x in trials <==> x in observed
    ensures Distinct(trials) && Distinct(observed)
  {
    assert Elements(observed) == Elements(trials);
    Pigeonhole(trials);
    Pigeonhole(observed);
  }

  lemma ObservedIffPlanned(r: Report, x: string)
    requires EveryTrialObserved(r.plan.trials, r.observations)
    requires forall j :: 0 <= j < |r.observations| ==> r.observations[j].trialId in TrialIds(r.plan.trials)
    ensures x in TrialIdList(r.plan.trials) <==> x in ObservedIdList(r.observations)
  {
    var trials, observed := TrialIdList(r.plan.trials), ObservedIdList(r.observations);
    if x in trials {
      var i :| 0 <= i < |trials| && trials[i] == x;
      var found := FindObservation(r.observations, r.plan.trials[i].id);
      var j :| 0 <= j < |r.observations| && r.observations[j] == found.value;
      assert observed[j] == x;
    }
    if x in observed {
      var j :| 0 <= j < |observed| && observed[j] == x;
      assert r.observations[j].trialId in TrialIds(r.plan.trials);
      var i :| 0 <= i < |r.plan.trials| && r.plan.trials[i].id == x;
      assert trials[i] == x;
    }
  }

  lemma TrialIdsAreElements(trials: seq<Trial>)
    ensures Elements(TrialIdList(trials)) == TrialIds(trials)
  {
    forall x | x in TrialIds(trials) ensures x in TrialIdList(trials) {
      var i :| 0 <= i < |trials| && trials[i].id == x;
      assert TrialIdList(trials)[i] == x;
    }
  }

  /** The length, membership and find checks together leave no room for a trial observed
      twice, nor for one left out. */
  lemma ValidatedIsOneToOne(env: Env, expected: Provenance, r: Report)
    requires Validate(env, expected, r).None?
    ensures OneToOne(r)
  {
    hide Validate, Deterministic, EveryTrialObserved, TrialIds, Elements;
    ValidatedFacts(env, expected, r);
    var trials, observed := TrialIdList(r.plan.trials), ObservedIdList(r.observations);
    TrialIdsAreElements(r.plan.trials);
    forall x ensures x in trials <==> x in observed { ObservedIffPlanned(r, x); }
    Correspond(trials, observed);
  }

  lemma ClaimsDistinctIff(claims: seq<Claim>)
    ensures |Scoring.ClaimIds(claims)| == |claims|
            <==> forall i, j :: 0 <= i < j < |claims| ==> claims[i].id != claims[j].id
  {
    var ids := seq(|claims|, i requires 0 <= i < |claims| => claims[i].id);
    Pigeonhole(ids);
    forall x | x in Scoring.ClaimIds(claims) ensures x in ids {
      var i :| 0 <= i < |claims| && claims[i].id == x;
      assert ids[i] == x;
    }
    assert Elements(ids) == Scoring.ClaimIds(claims);
    assert forall i :: 0 <= i < |claims| ==> ids[i] == claims[i].id;
  }

  lemma EvidenceDistinctIff(items: seq<EvidenceItem>)
    ensures |EvidenceIds(items)| == |items| <==> forall i, j :: 0 <= i < j < |items| ==> items[i].id != items[j].id
  {
    var ids := seq(|items|, i requires 0 <= i < |items| => items[i].id);
    Pigeonhole(ids);
    forall x | x in EvidenceIds(items) ensures x in ids {
      var i :| 0 <= i < |items| && items[i].id == x;
      assert ids[i] == x;
    }
    assert Elements(ids) == EvidenceIds(items);
    assert forall i :: 0 <= i < |items| ==> ids[i] == items[i].id;
  }

  predicate EvidenceExists(r: Report, id: string) { exists i :: 0 <= i < |r.evidence| && r.evidence[i].id == id }

  predicate Cites(r: Report, o: Observation) {
    forall i :: 0 <= i < |o.evidenceIds| ==> EvidenceExists(r, o.evidenceIds[i])
  }

  lemma GroundedIff(r: Report, o: Observation)
    ensures Grounded(r, o) <==>
              Cites(r, o) && exists i :: 0 <= i < |r.plan.trials| && r.plan.trials[i].id == o.trialId
  {
    forall id ensures id in EvidenceIds(r.evidence) <==> EvidenceExists(r, id) {
      if id in EvidenceIds(r.evidence) {
        var i :| 0 <= i < |r.evidence| && r.evidence[i].id == id;
      }
    }
    if o.trialId in TrialIds(r.plan.trials) {
      var i :| 0 <= i < |r.plan.trials| && r.plan.trials[i].id == o.trialId;
    }
  }

  lemma ObservedIff(observations: seq<Observation>, trialId: string)
    ensures FindObservation(observations, trialId).Some?
            <==> exists j :: 0 <= j < |observations| && observations[j].trialId == trialId
  {
    if j :| 0 <= j < |observations| && observations[j].trialId == trialId {
      assert observations[j] in observations;
    }
  }

  lemma TrialsDistinctIff(trials: seq<Trial>)
    ensures |TrialIds(trials)| == |trials| <==> Distinct(TrialIdList(trials))
  {
    Pigeonhole(TrialIdList(trials));
    TrialIdsAreElements(trials);
  }

  lemma OneToOneHelps(r: Report)
    requires OneToOne(r)
    ensures |r.observations| == |r.plan.trials| && EveryTrialObserved(r.plan.trials, r.observations)
    ensures forall i :: 0 <= i < |r.observations| ==>
              exists k :: 0 <= k < |r.plan.trials| && r.plan.trials[k].id == r.observations[i].trialId
  {
    var trials, observed := TrialIdList(r.plan.trials), ObservedIdList(r.observations);
    forall i | 0 <= i < |r.plan.trials| ensures FindObservation(r.observations, r.plan.trials[i].id).Some? {
      assert trials[i] in observed;
      var j :| 0 <= j < |observed| && observed[j] == trials[i];
      ObservedIff(r.observations, r.plan.trials[i].id);
    }
    forall i | 0 <= i < |r.observations|
      ensures exists k :: 0 <= k < |r.plan.trials| && r.plan.trials[k].id == r.observations[i].trialId
    {
      assert observed[i] in trials;
      var k :| 0 <= k < |trials| && trials[k] == observed[i];
      assert r.plan.trials[k].id == r.observations[i].trialId;
    }
  }

  /** The signer accepts a report exactly when the plan is the sealed one, the seed opens
      the commitment, the evaluator is the one it expects, claims and evidence have names of
      their own, trials and observations correspond one to one, observations cite evidence
      that is there, and the verdict recomputes. */
  lemma ValidateIff(env: Env, expected: Provenance, r: Report)
    ensures Validate(env, expected, r).None? <==>
              && r.planHash == env.h.json(VPlan(r.plan))
              && r.seedReveal.Some? && r.seedReveal.value != ""
              && r.plan.seedCommitment == env.h.json(VSeed(r.seedReveal.value, r.runId))
              && r.provenance.Some?
              && env.h.json(VProvenance(r.provenance.value)) == env.h.json(VProvenance(expected))
              && (forall i, j :: 0 <= i < j < |r.claims| ==> r.claims[i].id != r.claims[j].id)
              && (forall i, j :: 0 <= i < j < |r.evidence| ==> r.evidence[i].id != r.evidence[j].id)
              && OneToOne(r)
              && (forall i :: 0 <= i < |r.observations| ==> Cites(r, r.observations[i]))
              && env.h.json(VAssertions(Recomputed(env, r.plan.trials, r.observations)))
                 == env.h.json(VAssertions(r.assertions))
              && env.h.json(VScore(RecomputedScore(env, r))) == env.h.json(VScore(r.score))
  {
    hide Recomputed, RecomputedScore, Cites, OneToOne, EveryTrialObserved, Grounded, TrialIds, EvidenceIds,
         Scoring.ClaimIds;
    ClaimsDistinctIff(r.claims);
    EvidenceDistinctIff(r.evidence);
    TrialsDistinctIff(r.plan.trials);
    forall i | 0 <= i < |r.observations|
      ensures Grounded(r, r.observations[i]) ==> Cites(r, r.observations[i])
    {
      GroundedIff(r, r.observations[i]);
    }
    if Validate(env, expected, r).None? {
      ValidatedIsOneToOne(env, expected, r);
    } else if OneToOne(r) && forall i :: 0 <= i < |r.observations| ==> Cites(r, r.observations[i]) {
      OneToOneHelps(r);
      OneToOneIsDistinct(r);
      forall i | 0 <= i < |r.observations| ensures Grounded(r, r.observations[i]) { GroundedIff(r, r.observations[i]); }
    }
  }

  lemma OneToOneIsDistinct(r: Report)
    requires OneToOne(r)
    ensures Distinct(TrialIdList(r.plan.trials))
  {}

  // ---- Signing ----

  function SignedInput(at: string): EventInput {
    EventInput(at, RECEIPT_SIGNED, "receipt.signed",
               "Dedicated signer validated and signed the deterministic evaluation",
               Some(JObject(map["algorithm" := JString("Ed25519"),
                                "trustBoundary" := JString("no target-network access")])))
  }

  function AnchorInput(at: string, me: Identity): EventInput {
    EventInput(at, ATTESTING, "attestation.status", me.anchorMessage,
               Some(JObject(map["status" := JString(me.anchorLabel), "network" := JString("Base Sepolia")])))
  }

  function DoneInput(at: string, score: Score): EventInput {
    EventInput(at, COMPLETED, "run.completed", "Signed evidence bundle is ready",
               Some(JObject(map["score" := JNumber(score.overall), "coverage" := JNumber(score.coverage)])))
  }

  function RejectedInput(at: string, message: string): EventInput {
    EventInput(at, FAILED, "run.failed", "Dedicated signer rejected the unsigned evaluation",
               Some(JObject(map["error" := JString(message)])))
  }

  /** The run's events followed by the signer's three. */
  function SignedEvents(h: Hasher, me: Identity, events: seq<RunEvent>, score: Score, at: string): seq<RunEvent> {
    var one := events + [Sealed(h, events, SignedInput(at))];
    var two := one + [Sealed(h, one, AnchorInput(at, me))];
    two + [Sealed(h, two, DoneInput(at, score))]
  }

  /** The signer's last event always carries a text as its hash. */
  function HeadText(events: seq<RunEvent>): string {
    var head := Head(events);
    if head.JString? then head.text else ""
  }

  function PayloadFor(
    env: Env, me: Identity, runId: string, events: seq<RunEvent>, p: Pending, issuedAt: string): Payload
    requires p.report.provenance.Some?
  {
    var r := p.report;
    Payload(RECEIPT_VERSION, Scoring.METHODOLOGY_VERSION, runId, r.target.id, p.mode, r.planHash,
            r.plan.seedCommitment, r.provenance.value.evaluatorBuild, r.provenance.value.assertionRegistryHash,
            r.provenance.value.reportSchema, EvidenceRoot.Root(env.h, r.evidence), ItemHashes(env.h, r.evidence),
            env.h.json(VReport(r)), HeadText(events), RoundInt(r.score.overall * 100.0),
            RoundInt(r.score.coverage * 100.0), issuedAt, KeyId(me.publishedKey))
  }

  function SignedBundle(
    env: Env, me: Identity, runId: string, events: seq<RunEvent>, p: Pending, issuedAt: string): EvidenceBundle
    requires p.report.provenance.Some?
  {
    var payload := PayloadFor(env, me, runId, events, p, issuedAt);
    EvidenceBundle("1.0.0", p.report, events, EvidenceRoot.Root(env.h, p.report.evidence),
                   Receipt(payload, me.sign(payload), me.publicKey, "Ed25519"),
                   Some(Attachment(me.attestation, None, None, None, None, None, None, None)))
  }

  class Run {
    const id: string
    var state: PipelineState
    var events: seq<RunEvent>
    var pending: Option<Pending>
    var report: Option<Report>
    var bundle: Option<EvidenceBundle>

    constructor (id: string, state: PipelineState, events: seq<RunEvent>, pending: Option<Pending>)
      ensures this.id == id && this.state == state && this.events == events && this.pending == pending
      ensures report == None && bundle == None
    {
      this.id, this.state, this.events, this.pending := id, state, events, pending;
      report, bundle := None, None;
    }

    method AppendSignerEvent(h: Hasher, input: EventInput)
      modifies this`state, this`events
      ensures state == input.state && events == old(events) + [Sealed(h, old(events), input)]
    {
      state := input.state;
      var log := new EventLog(events);
      var _ := log.Append(h, input);
      events := log.events;
    }

    method AppendSignerEvents(h: Hasher, me: Identity, score: Score, at: string)
      modifies this`state, this`events
      ensures state == COMPLETED && events == SignedEvents(h, me, old(events), score, at)
    {
      hide Sealed;
      AppendSignerEvent(h, SignedInput(at));
      AppendSignerEvent(h, AnchorInput(at, me));
      AppendSignerEvent(h, DoneInput(at, score));
    }

    method IssueBundle(env: Env, me: Identity, p: Pending, issuedAt: string) returns (signed: EvidenceBundle)
      requires p.report.provenance.Some?
      ensures signed == SignedBundle(env, me, id, events, p, issuedAt)
    {
      hide EvidenceRoot.Root, ItemHashes, Head, KeyId, RoundInt;
      var root := EvidenceRoot.ComputeRoot(env.h, p.report.evidence);
      var payload := PayloadFor(env, me, id, events, p, issuedAt);
      signed := EvidenceBundle("1.0.0", p.report, events, root,
                               Receipt(payload, me.sign(payload), me.publicKey, "Ed25519"),
                               Some(Attachment(me.attestation, None, None, None, None, None, None, None)));
    }

    /** The run after signing the pending report p over the events it had before. */
    ghost predicate Finalized(env: Env, me: Identity, p: Pending, before: seq<RunEvent>, at: string, issuedAt: string)
      reads this
    {
      && p.report.provenance.Some?
      && events == SignedEvents(env.h, me, before, p.report.score, at)
      && bundle == Some(SignedBundle(env, me, id, events, p, issuedAt))
      && report == Some(p.report) && state == COMPLETED && pending == None
    }

    method CompleteWith(env: Env, me: Identity, p: Pending, at: string, issuedAt: string)
      requires p.report.provenance.Some?
      modifies this
      ensures Finalized(env, me, p, old(events), at, issuedAt)
    {
      hide SignedBundle, SignedEvents;
      AppendSignerEvents(env.h, me, p.report.score, at);
      var signed := IssueBundle(env, me, p, issuedAt);
      report, bundle, pending, state := Some(p.report), Some(signed), None, COMPLETED;
    }

    /** Refuses without touching the run, or completes it with a signed bundle. */
    method FinalizePendingRun(env: Env, me: Identity, at: string, issuedAt: string) returns (refusal: Option<Refusal>)
      modifies this
      ensures refusal == if old(pending).None? then Some(MissingPayload)
                         else Validate(env, me.provenance, old(pending).value.report)
      ensures if refusal.Some? then unchanged(this)
              else Finalized(env, me, old(pending).value, old(events), at, issuedAt)
      ensures refusal.None? ==>
                state == COMPLETED && pending == None && bundle.Some? && report == Some(old(pending).value.report)
                && bundle.value.report == old(pending).value.report && bundle.value.events == events
    {
      hide Validate, SignedEvents;
      if pending.None? { return Some(MissingPayload); }
      var p := pending.value;
      refusal := Validate(env, me.provenance, p.report);
      if refusal.Some? { return; }
      ValidatedFacts(env, me.provenance, p.report);
      CompleteWith(env, me, p, at, issuedAt);
    }

    method RejectPendingRun(h: Hasher, at: string, message: string)
      modifies this
      ensures Rejected() && events == old(events) + [Sealed(h, old(events), RejectedInput(at, message))]
      ensures state == FAILED && report == None && bundle == None && pending == None
    {
      report, bundle, pending := None, None, None;
      AppendSignerEvent(h, RejectedInput(at, message));
    }

    predicate Rejected()
      reads this
    {
      state == FAILED && report == None && bundle == None && pending == None
    }

    /** What processNextSigningJob does to the run it loaded; `saves` and `finishes` are
        whether the leased write of the signed run and the finish of its job succeed. The
        run ends either completed, with a bundle, or failed, without one, and its event
        chain stays valid. */
    method ProcessPendingRun(
      env: Env, me: Identity, at: string, issuedAt: string, saves: bool, finishes: bool,
      describe: Option<Refusal> -> string)
      returns (completed: bool)
      modifies this
      ensures completed <==>
                && saves && finishes && old(pending).Some?
                && Validate(env, me.provenance, old(pending).value.report).None?
      ensures if completed then Finalized(env, me, old(pending).value, old(events), at, issuedAt) else Rejected()
      ensures ValidChain(env.h, old(events)) ==> ValidChain(env.h, events)
    {
      hide Validate, ValidChain, SignedEvents, SignedBundle, Sealed;
      ghost var before, p := events, pending;
      var refusal := FinalizePendingRun(env, me, at, issuedAt);
      completed := refusal.None? && saves && finishes;
      if ValidChain(env.h, before) && refusal.None? {
        SignedEventsAreLinked(env.h, me, before, p.value.report.score, at);
      }
      if !completed {
        if ValidChain(env.h, events) { AppendKeepsChain(env.h, events, RejectedInput(at, describe(refusal))); }
        RejectPendingRun(env.h, at, describe(refusal));
      }
    }
  }

  // ---- What the signer says ----

  predicate SaysSigned(e: RunEvent, at: string) {
    e.base.rest ==
    map["at" := JString(at), "state" := JString("RECEIPT_SIGNED"), "type" := JString("receipt.signed"),
        "message" := JString("Dedicated signer validated and signed the deterministic evaluation"),
        "detail" := JObject(map["algorithm" := JString("Ed25519"),
                                "trustBoundary" := JString("no target-network access")])]
  }

  predicate SaysAnchor(e: RunEvent, me: Identity, at: string) {
    e.base.rest ==
    map["at" := JString(at), "state" := JString("ATTESTING"), "type" := JString("attestation.status"),
        "message" := JString(me.anchorMessage),
        "detail" := JObject(map["status" := JString(me.anchorLabel), "network" := JString("Base Sepolia")])]
  }

  predicate SaysDone(e: RunEvent, score: Score, at: string) {
    e.base.rest ==
    map["at" := JString(at), "state" := JString("COMPLETED"), "type" := JString("run.completed"),
        "message" := JString("Signed evidence bundle is ready"),
        "detail" := JObject(map["score" := JNumber(score.overall), "coverage" := JNumber(score.coverage)])]
  }

  predicate SaysRejected(e: RunEvent, at: string, message: string) {
    e.base.rest ==
    map["at" := JString(at), "state" := JString("FAILED"), "type" := JString("run.failed"),
        "message" := JString("Dedicated signer rejected the unsigned evaluation"),
        "detail" := JObject(map["error" := JString(message)])]
  }

  lemma SignedSays(h: Hasher, events: seq<RunEvent>, at: string)
    ensures SaysSigned(Sealed(h, events, SignedInput(at)), at)
  {
    hide EventId, Head;
  }

  lemma AnchorSays(h: Hasher, events: seq<RunEvent>, me: Identity, at: string)
    ensures SaysAnchor(Sealed(h, events, AnchorInput(at, me)), me, at)
  {
    hide EventId, Head;
  }

  lemma DoneSays(h: Hasher, events: seq<RunEvent>, score: Score, at: string)
    ensures SaysDone(Sealed(h, events, DoneInput(at, score)), score, at)
  {
    hide EventId, Head;
  }

  lemma RejectedSays(h: Hasher, events: seq<RunEvent>, at: string, message: string)
    ensures SaysRejected(Sealed(h, events, RejectedInput(at, message)), at, message)
  {
    hide EventId, Head;
  }

  /** Behind the events that were there: that it signed, how the anchoring stands, and the
      score, each in the state that goes with it. */
  lemma SignedEventsSay(h: Hasher, me: Identity, events: seq<RunEvent>, score: Score, at: string)
    ensures var all, n := SignedEvents(h, me, events, score, at), |events|;
            && |all| == n + 3 && all[..n] == events
            && SaysSigned(all[n], at) && SaysAnchor(all[n + 1], me, at) && SaysDone(all[n + 2], score, at)
  {
    hide Sealed, SaysSigned, SaysAnchor, SaysDone, SignedInput, AnchorInput, DoneInput;
    var one := events + [Sealed(h, events, SignedInput(at))];
    var two := one + [Sealed(h, one, AnchorInput(at, me))];
    SignedSays(h, events, at);
    AnchorSays(h, one, me, at);
    DoneSays(h, two, score, at);
  }

  /** Every field of the receipt, and what it is signed and published with. */
  lemma SignedBundleSays(
    env: Env, me: Identity, runId: string, events: seq<RunEvent>, p: Pending, issuedAt: string)
    requires p.report.provenance.Some?
    ensures var b := SignedBundle(env, me, runId, events, p, issuedAt);
            var q, r := b.receipt.payload, p.report;
            && b.schemaVersion == "1.0.0" && b.report == r && b.events == events
            && b.receipt.signature == me.sign(q) && b.receipt.publicKey == me.publicKey
            && b.receipt.algorithm == "Ed25519" && b.attestation.Some?
            && b.attestation.value.status == me.attestation && b.attestation.value.payloadHash == None
            && q.receiptVersion == "1.0.0" && q.methodologyVersion == "agenttrial-1.1.0" && q.runId == runId
            && q.targetId == r.target.id && q.mode == p.mode && q.planHash == r.planHash
            && q.seedCommitment == r.plan.seedCommitment && q.issuedAt == issuedAt
            && q.evaluatorBuild == r.provenance.value.evaluatorBuild
            && q.assertionRegistryHash == r.provenance.value.assertionRegistryHash
            && q.reportSchema == r.provenance.value.reportSchema
            && b.evidenceRoot == q.evidenceRoot == EvidenceRoot.Root(env.h, r.evidence)
            && |q.evidenceItemHashes| == |r.evidence|
            && (forall i :: 0 <= i < |r.evidence| ==> q.evidenceItemHashes[i] == env.h.json(VItem(r.evidence[i])))
            && q.reportHash == env.h.json(VReport(r))
            && (events != [] && (exists text :: events[|events| - 1].hash == Some(JString(text))) ==>
                  Some(JString(q.eventChainHead)) == events[|events| - 1].hash)
            && q.scoreBasisPoints as real - 0.5 <= r.score.overall * 100.0 < q.scoreBasisPoints as real + 0.5
            && q.coverageBasisPoints as real - 0.5 <= r.score.coverage * 100.0 < q.coverageBasisPoints as real + 0.5
            && (|me.publishedKey| >= 16 ==> q.keyId == "ed25519:" + me.publishedKey[..16])
            && (|me.publishedKey| < 16 ==> q.keyId == "ed25519:" + me.publishedKey)
  {
    hide EvidenceRoot.Root, ItemHashes, RoundInt;
    ItemHashesAre(env.h, p.report.evidence);
    RoundIntIs(p.report.score.overall * 100.0);
    RoundIntIs(p.report.score.coverage * 100.0);
    assert |me.publishedKey| == 16 ==> me.publishedKey[..16] == me.publishedKey;
  }

  lemma RoundIntIs(x: real)
    ensures RoundInt(x) as real - 0.5 <= x < RoundInt(x) as real + 0.5
  {}

  // ---- Whatever the signer signs, the verifier accepts ----

  lemma SignedEventsAreLinked(h: Hasher, me: Identity, events: seq<RunEvent>, score: Score, at: string)
    requires ValidChain(h, events)
    ensures ValidChain(h, SignedEvents(h, me, events, score, at))
  {
    hide SignedInput, AnchorInput, DoneInput, ValidChain, Sealed;
    var one := events + [Sealed(h, events, SignedInput(at))];
    var two := one + [Sealed(h, one, AnchorInput(at, me))];
    AppendKeepsChain(h, events, SignedInput(at));
    AppendKeepsChain(h, one, AnchorInput(at, me));
    AppendKeepsChain(h, two, DoneInput(at, score));
  }

  lemma SignedHeadIsText(h: Hasher, me: Identity, events: seq<RunEvent>, score: Score, at: string)
    ensures var signed := SignedEvents(h, me, events, score, at); Head(signed) == JString(HeadText(signed))
  {}

  lemma ScoreVersion(env: Env, r: Report)
    requires Deterministic(env, r)
    requires CollisionFree(env.h, {VScore(RecomputedScore(env, r)), VScore(r.score)}, {})
    ensures r.score.methodologyVersion == Scoring.METHODOLOGY_VERSION
  {
    hide Recomputed, TestedClaims;
    assert VScore(RecomputedScore(env, r)) == VScore(r.score);
  }

  /** For a run with a valid event chain and a signer whose signatures verify, a report
      that the signer validates becomes a bundle that the verifier accepts - every check
      passes - exactly when the report is of that run, the recorded mode fits the report,
      the published key has the signing key's id, and the verifier trusts the key. */
  lemma SignedBundleIsAcceptedIff(
    env: Env, me: Identity, runId: string, events: seq<RunEvent>, p: Pending, at: string, issuedAt: string,
    keys: Option<seq<string>>)
    requires Validate(env, me.provenance, p.report).None?
    requires ValidChain(env.h, events) && me.attestation != Anchored
    requires forall payload :: env.verifies(me.publicKey, payload, me.sign(payload))
    requires CollisionFree(env.h, {VScore(RecomputedScore(env, p.report)), VScore(p.report.score)}, {})
    ensures p.report.provenance.Some?
    ensures var signed := SignedEvents(env.h, me, events, p.report.score, at);
            Accepts(env, SignedBundle(env, me, runId, signed, p, issuedAt), keys)
            <==> p.report.runId == runId && p.mode == ModeOf(p.report)
                 && KeyId(me.publishedKey) == KeyId(me.publicKey) && Trusts(keys, me.publicKey)
  {
    hide Validate, Deterministic, ModeOf, KeyId, RoundInt, Lower, Trusts, ItemHashes, EvidenceRoot.Root,
         RecomputedScore, SignedEvents, Checks, FirstInvalid, EveryTrialObserved, Linked, LinkedLength, Accepts,
         Head, HeadText;
    ValidatedFacts(env, me.provenance, p.report);
    var signed := SignedEvents(env.h, me, events, p.report.score, at);
    var b := SignedBundle(env, me, runId, signed, p, issuedAt);
    SignedEventsAreLinked(env.h, me, events, p.report.score, at);
    SignedHeadIsText(env.h, me, events, p.report.score, at);
    LinkedLengthIs(env.h, signed, 0, |signed|);
    assert signed[..|signed|] == signed;
    assert ChainCheck(env.h, b);
    ScoreVersion(env, p.report);
    if ReceiptMatchesReport(b) && Trusts(keys, b.receipt.publicKey) { AllValid(env, b, keys); }
    if Accepts(env, b, keys) { AcceptedChecks(env, b, keys); }
  }

  lemma AllValid(env: Env, b: EvidenceBundle, keys: Option<seq<string>>)
    requires ChainCheck(env.h, b) && RootCheck(env.h, b) && PlanCheck(env.h, b)
    requires ItemHashes(env.h, b.report.evidence) == b.receipt.payload.evidenceItemHashes
    requires env.h.json(VReport(b.report)) == b.receipt.payload.reportHash
    requires SeedOpens(env.h, b.report) && ProvenanceMatches(b.report, b.receipt.payload)
    requires Deterministic(env, b.report) && ReceiptMatchesReport(b)
    requires env.verifies(b.receipt.publicKey, b.receipt.payload, b.receipt.signature)
    requires Trusts(keys, b.receipt.publicKey)
    requires b.attestation.Some? ==> b.attestation.value.status != Anchored
    ensures Accepts(env, b, keys)
  {
    hide Deterministic, ReceiptMatchesReport, ProvenanceMatches, SeedOpens, Trusts, ChainCheck, RootCheck, PlanCheck,
         ItemHashes;
    var cs := Checks(env, b, keys);
    forall i | 0 <= i < |cs| ensures cs[i].valid {}
  }
}
