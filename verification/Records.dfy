/** The record types of packages/core/src/types.ts and packages/evidence/src/index.ts.
    Fields that no modelled code inspects are kept together as one JSON value (`other`);
    they still take part in equality and in hashing. */
module Records {
  import opened Wrappers

  /** A JSON value. Objects are maps: canonical JSON ignores the order of keys. */
  datatype Json =
    | JNull
    | JBool(flag: bool)
    | JNumber(number: real)
    | JString(text: string)
    | JArray(items: seq<Json>)
    | JObject(fields: map<string, Json>)

  datatype PipelineState =
    | CREATED | DISCOVERING | CLAIMS_EXTRACTED | PLANNING | PLAN_SEALED | EXECUTING | VERIFYING
    | SCORING | RECEIPT_SIGNED | ATTESTING | COMPLETED | FAILED | CANCELLED

  function StateName(state: PipelineState): string {
    match state
    case CREATED => "CREATED"
    case DISCOVERING => "DISCOVERING"
    case CLAIMS_EXTRACTED => "CLAIMS_EXTRACTED"
    case PLANNING => "PLANNING"
    case PLAN_SEALED => "PLAN_SEALED"
    case EXECUTING => "EXECUTING"
    case VERIFYING => "VERIFYING"
    case SCORING => "SCORING"
    case RECEIPT_SIGNED => "RECEIPT_SIGNED"
    case ATTESTING => "ATTESTING"
    case COMPLETED => "COMPLETED"
    case FAILED => "FAILED"
    case CANCELLED => "CANCELLED"
  }

  datatype Dimension = Capability | Evidence | Safety | Reliability | Efficiency | Recovery

  datatype Claim = Claim(id: string, other: Json)

  datatype AssertionSpec = AssertionSpec(
    id: string, kind: string, field: string, expected: Json, dimension: Dimension, weight: real,
    description: string)

  datatype AssertionResult = AssertionResult(
    id: string, trialId: string, dimension: Dimension, weight: real, passed: bool,
    description: string, actual: Json, expected: Json, evidenceIds: seq<string>)

  datatype Trial = Trial(
    id: string, claimIds: seq<string>, assertions: seq<AssertionSpec>, active: bool,
    authorizationRequired: bool, other: Json)

  datatype ObservationStatus = Observed | RequestFailed | CapabilityFailed | NotTested

  datatype Observation = Observation(
    trialId: string, status: ObservationStatus, evidenceIds: seq<string>, other: Json)

  datatype EvidenceItem = EvidenceItem(id: string, trialId: Option<string>, other: Json)

  datatype Plan = Plan(version: string, seedCommitment: string, trials: seq<Trial>)

  datatype Target = Target(id: string, controlled: bool, other: Json)

  datatype Confidence = Low | Moderate | High
  datatype Badge = EvidenceBacked | Partial | NotVerified

  datatype Score = Score(
    overall: real, dimensions: map<Dimension, real>, coverage: real, confidence: Confidence,
    criticalFindings: seq<string>, untestedClaims: seq<string>, methodologyVersion: string,
    badge: Badge)

  datatype Provenance = Provenance(
    evaluatorBuild: string, runtimeVersion: string, assertionRegistryHash: string, reportSchema: string)

  datatype Report = Report(
    runId: string, target: Target, state: PipelineState, claims: seq<Claim>, plan: Plan,
    planHash: string, observations: seq<Observation>, assertions: seq<AssertionResult>,
    evidence: seq<EvidenceItem>, score: Score, seedReveal: Option<string>,
    provenance: Option<Provenance>, startedAt: string, completedAt: string)

  /** A run event without its hash, and the hashed event. An uploaded event list may hold
      any JSON objects, so a field that the verifier looks at may be absent (None) or of
      any type; the other fields, known or not, are kept together. */
  datatype EventBase = EventBase(
    index: Option<Json>, id: Option<Json>, previousHash: Option<Json>, rest: map<string, Json>)

  datatype RunEvent = RunEvent(base: EventBase, hash: Option<Json>)

  /** What a caller of appendEvent supplies. */
  datatype EventInput = EventInput(
    at: string, state: PipelineState, kind: string, message: string, detail: Option<Json>)

  datatype Payload = Payload(
    receiptVersion: string, methodologyVersion: string, runId: string, targetId: string, mode: string,
    planHash: string, seedCommitment: string, evaluatorBuild: string, assertionRegistryHash: string,
    reportSchema: string, evidenceRoot: string, evidenceItemHashes: seq<string>, reportHash: string,
    eventChainHead: string, scoreBasisPoints: int, coverageBasisPoints: int, issuedAt: string, keyId: string)

  /** Everything the modelled code passes to hashObject. */
  datatype Value =
    | VEvent(event: EventBase)
    | VItem(item: EvidenceItem)
    | VReport(report: Report)
    | VPlan(plan: Plan)
    | VSeed(seed: string, runId: string)
    | VProvenance(provenance: Provenance)
    | VAssertions(results: seq<AssertionResult>)
    | VScore(score: Score)
    | VBinding(binding: Binding)

  /** The fields an attestation is bound to. */
  datatype Binding = Binding(
    chainId: int, easContract: string, schemaUid: string, targetIdentifier: string, trialRoot: string,
    methodologyVersion: string, scoreBasisPoints: int, coverageBasisPoints: int, evidenceRoot: string,
    reportURI: string, evaluatedAt: int)
}
