/** The offline verifier of packages/evidence/src/index.ts: every check it makes on a
    signed bundle, and what an accepted bundle is bound to. */
module Bundle {
  import opened Wrappers
  import opened Records
  import opened Hashing
  import opened EventChain
  import EvidenceRoot
  import Scoring

  const RECEIPT_VERSION := "1.0.0"
  const LEGACY_METHODOLOGY := "agenttrial-1.0.0"

  datatype AttachmentStatus = Disabled | NotConfigured | Queued | Waiting | Submitted | Anchored | Rejected

  datatype Attachment = Attachment(
    status: AttachmentStatus, chainId: Option<int>, easContract: Option<string>, schemaUid: Option<string>,
    payloadHash: Option<string>, reportURI: Option<string>, uid: Option<string>, transactionHash: Option<string>)

  datatype Receipt = Receipt(payload: Payload, signature: string, publicKey: string, algorithm: string)

  datatype EvidenceBundle = EvidenceBundle(
    schemaVersion: string, report: Report, events: seq<RunEvent>, evidenceRoot: string, receipt: Receipt,
    attestation: Option<Attachment>)

  datatype Judgement = Judgement(passed: bool, actual: Json)

  /** The library code the verifier calls: hashing, the per-assertion test, signature
      verification of a receipt payload under a public key, and date parsing (None when
      the text is no date). */
  datatype Env = Env(
    h: Hasher,
    judge: (AssertionSpec, Observation) -> Judgement,
    verifies: (string, Payload, string) -> bool,
    parseTime: string -> Option<int>)

  datatype CheckName =
    | EventChainCheck | EvidenceItemsCheck | EvidenceRootCheck | ReportCheck | SealedPlanCheck
    | SeedOpeningCheck | ProvenanceCheck | VerdictCheck | ReceiptClaimsCheck | SignatureCheck
    | TrustedSignerCheck | AttachmentCheck

  datatype Check = Check(name: CheckName, valid: bool)

  datatype Verification = Verification(valid: bool, checks: seq<Check>, firstMismatch: Option<CheckName>)

  // ---- Recomputing assertions and score ----

  /** packages/core/src/assertions.ts: one result per spec, in order. */
  function EvaluateAssertions(env: Env, specs: seq<AssertionSpec>, o: Observation): seq<AssertionResult> {
    if specs == [] then []
    else
      var s, j := specs[0], env.judge(specs[0], o);
      [AssertionResult(s.id, o.trialId, s.dimension, s.weight, j.passed, s.description, j.actual, s.expected,
                       o.evidenceIds)]
        + EvaluateAssertions(env, specs[1..], o)
  }

  function FindObservation(observations: seq<Observation>, trialId: string): (found: Option<Observation>)
    ensures found.Some? ==> found.value in observations && found.value.trialId == trialId
    ensures found.None? ==> forall o :: o in observations ==> o.trialId != trialId
  {
    if observations == [] then None
    else if observations[0].trialId == trialId then Some(observations[0])
    else FindObservation(observations[1..], trialId)
  }

  function Recomputed(env: Env, trials: seq<Trial>, observations: seq<Observation>): seq<AssertionResult> {
    if trials == [] then []
    else
      var found := FindObservation(observations, trials[0].id);
      (if found.Some? then EvaluateAssertions(env, trials[0].assertions, found.value) else [])
        + Recomputed(env, trials[1..], observations)
  }

  predicate Tested(observations: seq<Observation>, trialId: string) {
    exists i :: 0 <= i < |observations| && observations[i].trialId == trialId && observations[i].status != NotTested
  }

  function TestedClaims(trials: seq<Trial>, observations: seq<Observation>): set<string> {
    if trials == [] then {}
    else (if Tested(observations, trials[0].id) then set c | c in trials[0].claimIds else {})
         + TestedClaims(trials[1..], observations)
  }

  function RecomputedScore(env: Env, r: Report): Score {
    Scoring.CalculateScore(Recomputed(env, r.plan.trials, r.observations), r.claims,
                           TestedClaims(r.plan.trials, r.observations))
  }

  predicate Deterministic(env: Env, r: Report) {
    && env.h.json(VAssertions(Recomputed(env, r.plan.trials, r.observations))) == env.h.json(VAssertions(r.assertions))
    && env.h.json(VScore(RecomputedScore(env, r))) == env.h.json(VScore(r.score))
  }

  // ---- Small pieces ----

  function ItemHashes(h: Hasher, items: seq<EvidenceItem>): seq<string> {
    if items == [] then [] else [h.json(VItem(items[0]))] + ItemHashes(h, items[1..])
  }

  lemma {:induction false} ItemHashesAre(h: Hasher, items: seq<EvidenceItem>)
    ensures |ItemHashes(h, items)| == |items|
    ensures forall i :: 0 <= i < |items| ==> ItemHashes(h, items)[i] == h.json(VItem(items[i]))
  {
    if items != [] { ItemHashesAre(h, items[1..]); }
  }

  function RoundInt(x: real): int { (x + 0.5).Floor }

  function LowerChar(c: char): char { if 'A' <= c <= 'Z' then (c as int + 32) as char else c }

  function Lower(s: string): string {
    if s == "" then "" else [LowerChar(s[0])] + Lower(s[1..])
  }

  function KeyId(publicKey: string): string {
    "ed25519:" + (if |publicKey| <= 16 then publicKey else publicKey[..16])
  }

  function ModeOf(r: Report): string {
    if r.target.controlled then "active-controlled"
    else if exists i :: 0 <= i < |r.plan.trials| && r.plan.trials[i].active && r.plan.trials[i].authorizationRequired
      then "active-external"
    else "passive-external"
  }

  predicate SeedOpens(h: Hasher, r: Report) {
    if r.seedReveal.Some? && r.seedReveal.value != "" then
      h.json(VSeed(r.seedReveal.value, r.runId)) == r.plan.seedCommitment
    else r.score.methodologyVersion == LEGACY_METHODOLOGY
  }

  predicate ProvenanceMatches(r: Report, p: Payload) {
    r.score.methodologyVersion == LEGACY_METHODOLOGY
    || (r.provenance.Some?
        && p.evaluatorBuild == r.provenance.value.evaluatorBuild
        && p.assertionRegistryHash == r.provenance.value.assertionRegistryHash
        && p.reportSchema == r.provenance.value.reportSchema)
  }

  predicate ReceiptMatchesReport(b: EvidenceBundle) {
    var r, p := b.report, b.receipt.payload;
    && b.schemaVersion == "1.0.0" && p.receiptVersion == RECEIPT_VERSION && b.receipt.algorithm == "Ed25519"
    && p.runId == r.runId && p.targetId == r.target.id && p.methodologyVersion == r.score.methodologyVersion
    && p.seedCommitment == r.plan.seedCommitment && p.mode == ModeOf(r)
    && p.keyId == KeyId(b.receipt.publicKey)
    && p.scoreBasisPoints == RoundInt(r.score.overall * 100.0)
    && p.coverageBasisPoints == RoundInt(r.score.coverage * 100.0)
  }

  predicate Trusts(keys: Option<seq<string>>, publicKey: string) {
    keys.Some? && exists i :: 0 <= i < |keys.value| && Lower(keys.value[i]) == Lower(publicKey)
  }

  predicate HexWord(s: string, digits: nat) {
    && |s| == digits + 2 && s[0] == '0' && (s[1] == 'x' || s[1] == 'X')
    && forall i :: 2 <= i < |s| ==> HexDigit(LowerChar(s[i]))
  }

  function GetOr(o: Option<string>, default: string): string { if o.Some? then o.value else default }

  /** The fields of attestationBindingHash. */
  function BindingOf(
    p: Payload, chainId: int, easContract: string, schemaUid: string, reportURI: string, issuedMs: int): Binding
  {
    Binding(chainId, Lower(easContract), Lower(schemaUid), p.targetId, p.planHash, p.methodologyVersion,
            p.scoreBasisPoints, p.coverageBasisPoints, p.evidenceRoot, reportURI, issuedMs / 1000)
  }

  predicate AttachmentBinds(env: Env, p: Payload, a: Attachment) {
    && a.chainId == Some(84532)
    && HexWord(GetOr(a.easContract, ""), 40) && HexWord(GetOr(a.schemaUid, ""), 64)
    && HexWord(GetOr(a.uid, ""), 64) && HexWord(GetOr(a.transactionHash, ""), 64)
    && env.parseTime(p.issuedAt).Some?
    && a.payloadHash == Some(env.h.json(VBinding(BindingOf(
         p, 84532, GetOr(a.easContract, ""), GetOr(a.schemaUid, ""), GetOr(a.reportURI, ""),
         env.parseTime(p.issuedAt).value))))
  }

  // ---- The checks ----

  /** What the source's `!` makes of a field: absent, null, false, 0 and the empty text
      count as false. */
  predicate Falsy(field: Option<Json>) {
    field.None? || field.value == JNull || field.value == JBool(false) || field.value == JNumber(0.0)
    || field.value == JString("")
  }

  /** A mismatching event is remembered by its id, and a falsy id reads as no mismatch. */
  predicate ChainCheck(h: Hasher, b: EvidenceBundle) {
    var n := LinkedLength(h, b.events, 0);
    && (n < |b.events| ==> Falsy(b.events[n].base.id))
    && Head(b.events[..n]) == JString(b.receipt.payload.eventChainHead)
  }

  predicate PlanCheck(h: Hasher, b: EvidenceBundle) {
    h.json(VPlan(b.report.plan)) == b.report.planHash && b.report.planHash == b.receipt.payload.planHash
  }

  predicate RootCheck(h: Hasher, b: EvidenceBundle) {
    EvidenceRoot.Root(h, b.report.evidence) == b.evidenceRoot && b.evidenceRoot == b.receipt.payload.evidenceRoot
  }

  function Checks(env: Env, b: EvidenceBundle, keys: Option<seq<string>>): seq<Check> {
    [Check(EventChainCheck, ChainCheck(env.h, b))]
    + [Check(EvidenceItemsCheck, ItemHashes(env.h, b.report.evidence) == b.receipt.payload.evidenceItemHashes)]
    + [Check(EvidenceRootCheck, RootCheck(env.h, b))]
    + [Check(ReportCheck, env.h.json(VReport(b.report)) == b.receipt.payload.reportHash)]
    + [Check(SealedPlanCheck, PlanCheck(env.h, b))]
    + [Check(SeedOpeningCheck, SeedOpens(env.h, b.report))]
    + [Check(ProvenanceCheck, ProvenanceMatches(b.report, b.receipt.payload))]
    + [Check(VerdictCheck, Deterministic(env, b.report))]
    + [Check(ReceiptClaimsCheck, ReceiptMatchesReport(b))]
    + [Check(SignatureCheck, env.verifies(b.receipt.publicKey, b.receipt.payload, b.receipt.signature))]
    + [Check(TrustedSignerCheck, Trusts(keys, b.receipt.publicKey))]
    + (if b.attestation.Some? && b.attestation.value.status == Anchored then
         [Check(AttachmentCheck, AttachmentBinds(env, b.receipt.payload, b.attestation.value))]
       else [])
  }

  function FirstInvalid(checks: seq<Check>): (first: Option<CheckName>)
    ensures first.None? <==> forall i :: 0 <= i < |checks| ==> checks[i].valid
    ensures first.Some? ==>
              exists i :: 0 <= i < |checks| && checks[i] == Check(first.value, false)
                          && forall j :: 0 <= j < i ==> checks[j].valid
  {
    if checks == [] then None
    else if !checks[0].valid then Some(checks[0].name)
    else FirstInvalid(checks[1..])
  }

  predicate Accepts(env: Env, b: EvidenceBundle, keys: Option<seq<string>>) {
    FirstInvalid(Checks(env, b, keys)).None?
  }

  lemma ChainCheckIs(h: Hasher, b: EvidenceBundle, mismatch: Option<Json>, previous: Json)
    requires var n := LinkedLength(h, b.events, 0);
             && mismatch == (if n < |b.events| then b.events[n].base.id else None)
             && previous == Head(b.events[..n])
    ensures ChainCheck(h, b) == (Falsy(mismatch) && previous == JString(b.receipt.payload.eventChainHead))
  {}

  method VerifyBundle(env: Env, bundle: EvidenceBundle, keys: Option<seq<string>>) returns (result: Verification)
    ensures result.checks == Checks(env, bundle, keys)
    ensures result.valid == Accepts(env, bundle, keys)
    ensures result.firstMismatch == FirstInvalid(Checks(env, bundle, keys))
  {
    hide Deterministic, ReceiptMatchesReport, ProvenanceMatches, SeedOpens, AttachmentBinds, Trusts, FirstInvalid,
         ItemHashes, FindMismatch, Head, LinkedLength, EvidenceRoot.Root, ChainCheck, Falsy;
    var payload := bundle.receipt.payload;
    var eventMismatch, previous := ScanChain(env.h, bundle.events);
    var linked := Falsy(eventMismatch) && previous == JString(payload.eventChainHead);
    ChainCheckIs(env.h, bundle, eventMismatch, previous);
    var checks := [Check(EventChainCheck, linked)];
    var itemHashes := ItemHashes(env.h, bundle.report.evidence);
    var mismatch := FindMismatch(itemHashes, payload.evidenceItemHashes);
    MismatchMeansDifferent(itemHashes, payload.evidenceItemHashes);
    checks := checks + [Check(EvidenceItemsCheck, mismatch.None? && |itemHashes| == |payload.evidenceItemHashes|)];
    var root := EvidenceRoot.ComputeRoot(env.h, bundle.report.evidence);
    checks := checks + [Check(EvidenceRootCheck, root == bundle.evidenceRoot && root == payload.evidenceRoot)];
    checks := checks + [Check(ReportCheck, env.h.json(VReport(bundle.report)) == payload.reportHash)];
    var planHash := env.h.json(VPlan(bundle.report.plan));
    checks := checks + [Check(SealedPlanCheck, planHash == bundle.report.planHash && planHash == payload.planHash)];
    checks := checks + [Check(SeedOpeningCheck, SeedOpens(env.h, bundle.report))];
    checks := checks + [Check(ProvenanceCheck, ProvenanceMatches(bundle.report, payload))];
    checks := checks + [Check(VerdictCheck, Deterministic(env, bundle.report))];
    checks := checks + [Check(ReceiptClaimsCheck, ReceiptMatchesReport(bundle))];
    var signatureValid := env.verifies(bundle.receipt.publicKey, payload, bundle.receipt.signature);
    checks := checks + [Check(SignatureCheck, signatureValid)];
    checks := checks + [Check(TrustedSignerCheck, Trusts(keys, bundle.receipt.publicKey))];
    if bundle.attestation.Some? && bundle.attestation.value.status == Anchored {
      checks := checks + [Check(AttachmentCheck, AttachmentBinds(env, payload, bundle.attestation.value))];
    }
    var first := FirstInvalid(checks);
    result := Verification(first.None?, checks, first);
  }

  /** findIndex over the computed hashes: the first that differs from its counterpart. */
  function FindMismatch(hashes: seq<string>, expected: seq<string>): Option<nat> {
    if hashes == [] then None
    else if expected == [] || hashes[0] != expected[0] then Some(0)
    else
      var rest := FindMismatch(hashes[1..], expected[1..]);
      if rest.Some? then Some(rest.value + 1) else None
  }

  lemma {:induction false} MismatchMeansDifferent(hashes: seq<string>, expected: seq<string>)
    ensures FindMismatch(hashes, expected).None? && |hashes| == |expected| <==> hashes == expected
  {
    if hashes != [] && expected != [] && hashes[0] == expected[0] {
      MismatchMeansDifferent(hashes[1..], expected[1..]);
      assert hashes == [hashes[0]] + hashes[1..] && expected == [expected[0]] + expected[1..];
    }
  }

  // ---- What acceptance means for the events ----

  lemma AcceptedChecks(env: Env, b: EvidenceBundle, keys: Option<seq<string>>)
    requires Accepts(env, b, keys)
    ensures ChainCheck(env.h, b) && RootCheck(env.h, b) && PlanCheck(env.h, b)
    ensures env.h.json(VReport(b.report)) == b.receipt.payload.reportHash
    ensures ReceiptMatchesReport(b) && Deterministic(env, b.report) && Trusts(keys, b.receipt.publicKey)
  {
    hide Deterministic, ReceiptMatchesReport, ProvenanceMatches, SeedOpens, AttachmentBinds, Trusts,
         ChainCheck, RootCheck, PlanCheck;
    var cs := Checks(env, b, keys);
    assert cs[0].valid && cs[2].valid && cs[3].valid && cs[4].valid && cs[7].valid && cs[8].valid && cs[10].valid;
  }

  predicate EveryIdTruthy(events: seq<RunEvent>) { forall i :: 0 <= i < |events| ==> !Falsy(events[i].base.id) }

  /** The part of the event list that the verifier really compared with the receipt. */
  function Checked(h: Hasher, events: seq<RunEvent>): seq<RunEvent> { events[..LinkedLength(h, events, 0)] }

  lemma LinkedIdIsTruthy(h: Hasher, events: seq<RunEvent>, i: nat)
    requires i < |events| && Linked(h, events, i)
    ensures !Falsy(events[i].base.id)
  {}

  /** An accepted bundle's whole event list is a valid chain exactly when every event
      in it has a truthy id. */
  lemma AcceptedChainIsWholeIff(env: Env, b: EvidenceBundle, keys: Option<seq<string>>)
    requires Accepts(env, b, keys)
    ensures ValidChain(env.h, b.events) <==> EveryIdTruthy(b.events)
    ensures Checked(env.h, b.events) == b.events <==> EveryIdTruthy(b.events)
    ensures ValidChain(env.h, Checked(env.h, b.events))
    ensures Head(Checked(env.h, b.events)) == JString(b.receipt.payload.eventChainHead)
  {
    hide Falsy, Linked, Accepts, Head;
    AcceptedChecks(env, b, keys);
    var n := LinkedLength(env.h, b.events, 0);
    PrefixLinked(env.h, b.events, n);
    if n == |b.events| {
      forall i | 0 <= i < |b.events| ensures !Falsy(b.events[i].base.id) { LinkedIdIsTruthy(env.h, b.events, i); }
    } else {
      assert Falsy(b.events[n].base.id);
      assert |Checked(env.h, b.events)| < |b.events|;
    }
  }

  /** The converse danger: behind the events of any accepted bundle, an event with a
      falsy id - none at all, say - and anything after it, goes unnoticed. */
  lemma FalsyIdHidesTail(env: Env, b: EvidenceBundle, keys: Option<seq<string>>, tail: seq<RunEvent>)
    requires Accepts(env, b, keys) && EveryIdTruthy(b.events) && tail != [] && Falsy(tail[0].base.id)
    ensures Accepts(env, b.(events := b.events + tail), keys)
    ensures b.events + tail != b.events && !ValidChain(env.h, b.events + tail)
  {
    hide Accepts, Falsy, Head;
    AcceptedChainIsWholeIff(env, b, keys);
    AcceptedChecks(env, b, keys);
    var longer := b.(events := b.events + tail);
    var n := |b.events|;
    SamePrefixLinked(env.h, b.events, longer.events);
    if Linked(env.h, longer.events, n) { LinkedIdIsTruthy(env.h, longer.events, n); }
    LinkedLengthIs(env.h, longer.events, 0, n);
    LinkedLengthIs(env.h, b.events, 0, n);
    assert longer.events[..n] == b.events == b.events[..n];
    assert ChainCheck(env.h, longer);
    SameOtherChecks(env, b, longer, keys);
  }

  lemma SamePrefixLinked(h: Hasher, events: seq<RunEvent>, longer: seq<RunEvent>)
    requires |events| <= |longer| && longer[..|events|] == events && ValidChain(h, events)
    ensures forall j :: 0 <= j < |events| ==> Linked(h, longer, j)
  {
    forall j | 0 <= j < |events| ensures Linked(h, longer, j) {
      assert Linked(h, events, j);
      assert longer[..j] == longer[..|events|][..j];
      assert longer[j] == longer[..|events|][j];
    }
  }

  /** One such upload: the object without any field. */
  lemma EmptyObjectGoesUnnoticed(env: Env, b: EvidenceBundle, keys: Option<seq<string>>)
    requires Accepts(env, b, keys) && EveryIdTruthy(b.events)
    ensures Accepts(env, b.(events := b.events + [RunEvent(EventBase(None, None, None, map[]), None)]), keys)
  {
    FalsyIdHidesTail(env, b, keys, [RunEvent(EventBase(None, None, None, map[]), None)]);
  }

  lemma SameOtherChecks(env: Env, a: EvidenceBundle, b: EvidenceBundle, keys: Option<seq<string>>)
    requires b == a.(events := b.events) && ChainCheck(env.h, b) && Accepts(env, a, keys)
    ensures Accepts(env, b, keys)
  {
    hide Deterministic, ProvenanceMatches, SeedOpens, AttachmentBinds, Trusts, ChainCheck, ModeOf, KeyId;
    var cs, cs' := Checks(env, a, keys), Checks(env, b, keys);
    forall i | 0 <= i < |cs'| ensures cs'[i].valid {
      assert cs[i].valid;
      if i > 0 { assert cs'[i] == cs[i]; }
    }
  }

  // ---- What a receipt binds ----

  ghost function BundleValues(h: Hasher, b: EvidenceBundle): set<Value> {
    ChainValues(Checked(h, b.events)) + {VReport(b.report)}
  }

  /** Two accepted bundles with the same receipt payload carry the same report - hence
      the same plan, observations and evidence items - and the same checked events;
      their event lists are equal outright when every event has a truthy id. */
  lemma ReceiptBindsContent(
    env: Env, a: EvidenceBundle, b: EvidenceBundle, ka: Option<seq<string>>, kb: Option<seq<string>>)
    requires Accepts(env, a, ka) && Accepts(env, b, kb) && a.receipt.payload == b.receipt.payload
    requires CollisionFree(env.h, BundleValues(env.h, a) + BundleValues(env.h, b), {})
    requires NoZeroDigest(env.h, BundleValues(env.h, a) + BundleValues(env.h, b))
    ensures a.report == b.report && a.evidenceRoot == b.evidenceRoot
    ensures Checked(env.h, a.events) == Checked(env.h, b.events)
    ensures EveryIdTruthy(a.events) && EveryIdTruthy(b.events) ==> a.events == b.events
  {
    hide Accepts, ChainCheck, PlanCheck, ReceiptMatchesReport, Deterministic, Trusts, ValidChain, Checked,
         EveryIdTruthy, EvidenceRoot.Root, ChainValues;
    AcceptedChecks(env, a, ka);
    AcceptedChecks(env, b, kb);
    AcceptedChainIsWholeIff(env, a, ka);
    AcceptedChainIsWholeIff(env, b, kb);
    assert VReport(a.report) in BundleValues(env.h, a) && VReport(b.report) in BundleValues(env.h, b);
    HeadBindsChain(env.h, Checked(env.h, a.events), Checked(env.h, b.events));
  }

  /** Likewise for the separately signed evidence: equal payloads force equal items, in
      order, through the root alone. */
  lemma ReceiptBindsEvidence(env: Env, a: EvidenceBundle, b: EvidenceBundle)
    requires RootCheck(env.h, a) && RootCheck(env.h, b)
             && a.receipt.payload.evidenceRoot == b.receipt.payload.evidenceRoot
    requires Digests(env.h)
    requires CollisionFree(env.h,
               EvidenceRoot.ItemValues(a.report.evidence) + EvidenceRoot.ItemValues(b.report.evidence),
               EvidenceRoot.RootTexts(env.h, a.report.evidence) + EvidenceRoot.RootTexts(env.h, b.report.evidence))
    ensures a.report.evidence == b.report.evidence
  {
    EvidenceRoot.RootBindsItems(env.h, a.report.evidence, b.report.evidence);
  }

  // ---- Trusted keys at a date ----

  datatype KeyStatus = ActiveKey | PreviousKey | RevokedKey

  datatype KeyRecord = KeyRecord(
    publicKey: string, status: KeyStatus, notBefore: string, notAfter: Option<string>, revokedAt: Option<string>)

  predicate TrustedAt(env: Env, k: KeyRecord, issued: int) {
    && k.status != RevokedKey && GetOr(k.revokedAt, "") == ""
    && env.parseTime(k.notBefore).Some? && env.parseTime(k.notBefore).value <= issued
    && (GetOr(k.notAfter, "") != "" ==>
          env.parseTime(k.notAfter.value).Some? && issued <= env.parseTime(k.notAfter.value).value)
  }

  function TrustedPublicKeysAt(env: Env, records: seq<KeyRecord>, issuedAt: string): (keys: seq<string>)
    ensures forall key :: key in keys <==>
              env.parseTime(issuedAt).Some?
              && exists i :: 0 <= i < |records| && TrustedAt(env, records[i], env.parseTime(issuedAt).value)
                             && Lower(records[i].publicKey) == key
  {
    var issued := env.parseTime(issuedAt);
    if issued.None? || records == [] then []
    else
      (if TrustedAt(env, records[0], issued.value) then [Lower(records[0].publicKey)] else [])
        + TrustedPublicKeysAt(env, records[1..], issuedAt)
  }
}
