/** What it takes for verifyBundle of packages/evidence/src/index.ts to accept a bundle,
    written out condition by condition. */
module Acceptance {
  import opened Wrappers
  import opened Records
  import opened Hashing
  import opened EventChain
  import opened Bundle
  import EvidenceRoot

  // ---- Each check in plain terms ----

  /** The first n events are numbered, named, linked and hashed, the head is the hash of
      the last of them, and an event after them has an id that reads as false. */
  predicate ChainUpTo(h: Hasher, events: seq<RunEvent>, head: string, n: nat) {
    && n <= |events|
    && (forall i :: 0 <= i < n ==> Chained(h, events, i))
    && head == (if n == 0 then ZEROS else h.json(VEvent(events[n - 1].base)))
    && (n < |events| ==>
          events[n].base.id in {None, Some(JNull), Some(JBool(false)), Some(JNumber(0.0)), Some(JString(""))})
  }

  predicate Chained(h: Hasher, events: seq<RunEvent>, i: nat)
    requires i < |events|
  {
    && events[i].base.index == Some(JNumber(i as real))
    && events[i].base.id == Some(JString(EventId(i + 1)))
    && events[i].hash == Some(JString(h.json(VEvent(events[i].base))))
    && events[i].base.previousHash == Some(JString(if i == 0 then ZEROS else h.json(VEvent(events[i - 1].base))))
  }

  lemma ChainCheckIff(h: Hasher, b: EvidenceBundle)
    ensures ChainCheck(h, b) <==> exists n: nat :: ChainUpTo(h, b.events, b.receipt.payload.eventChainHead, n)
  {
    hide EventId, Linked, Chained, Head;
    if ChainCheck(h, b) {
      var n := LinkedLength(h, b.events, 0);
      ChainedIff(h, b.events, n);
      HeadOfLinked(h, b.events, n);
      assert ChainUpTo(h, b.events, b.receipt.payload.eventChainHead, n);
    }
    if n: nat :| ChainUpTo(h, b.events, b.receipt.payload.eventChainHead, n) {
      ChainedIff(h, b.events, n);
      HeadOfLinked(h, b.events, n);
      if n < |b.events| && Linked(h, b.events, n) { LinkedIdIsTruthy(h, b.events, n); }
      LinkedLengthIs(h, b.events, 0, n);
    }
  }

  lemma HeadOfLinked(h: Hasher, events: seq<RunEvent>, n: nat)
    requires n <= |events| && forall i :: 0 <= i < n ==> Linked(h, events, i)
    ensures Head(events[..n]) == JString(if n == 0 then ZEROS else h.json(VEvent(events[n - 1].base)))
  {
    if n == 0 {
      assert events[..n] == [];
    } else {
      LinkedHead(h, events, n - 1);
    }
  }

  lemma {:induction false} ChainedIff(h: Hasher, events: seq<RunEvent>, n: nat)
    requires n <= |events|
    ensures (forall i :: 0 <= i < n ==> Linked(h, events, i)) <==> (forall i :: 0 <= i < n ==> Chained(h, events, i))
  {
    if n > 0 {
      ChainedIff(h, events, n - 1);
      if forall i :: 0 <= i < n - 1 ==> Linked(h, events, i) { ChainedStep(h, events, n - 1); }
    }
  }

  lemma ChainedStep(h: Hasher, events: seq<RunEvent>, i: nat)
    requires i < |events| && forall j :: 0 <= j < i ==> Linked(h, events, j)
    ensures Linked(h, events, i) <==> Chained(h, events, i)
  {
    HeadOfLinked(h, events, i);
  }

  lemma ItemsCheckIff(h: Hasher, b: EvidenceBundle)
    ensures ItemHashes(h, b.report.evidence) == b.receipt.payload.evidenceItemHashes <==>
              && |b.receipt.payload.evidenceItemHashes| == |b.report.evidence|
              && forall i :: 0 <= i < |b.report.evidence| ==>
                   b.receipt.payload.evidenceItemHashes[i] == h.json(VItem(b.report.evidence[i]))
  {
    ItemHashesAre(h, b.report.evidence);
  }

  lemma {:induction false} LowerIs(s: string)
    ensures |Lower(s)| == |s|
    ensures forall i :: 0 <= i < |s| ==>
              Lower(s)[i] == if 'A' <= s[i] <= 'Z' then (s[i] as int + 32) as char else s[i]
  {
    if s != "" { LowerIs(s[1..]); }
  }

  lemma TrustIff(keys: Option<seq<string>>, publicKey: string)
    ensures Trusts(keys, publicKey) <==>
              keys.Some? && exists k :: k in keys.value && |k| == |publicKey| && SameLetters(k, publicKey)
  {
    forall k: string ensures Lower(k) == Lower(publicKey) <==> |k| == |publicKey| && SameLetters(k, publicKey) {
      LowerIs(k);
      LowerIs(publicKey);
      if Lower(k) == Lower(publicKey) {
        forall i | 0 <= i < |k| ensures SameLetter(k[i], publicKey[i]) {
          assert Lower(k)[i] == Lower(publicKey)[i];
        }
      }
      if |k| == |publicKey| && SameLetters(k, publicKey) {
        forall i | 0 <= i < |k| ensures Lower(k)[i] == Lower(publicKey)[i] { assert SameLetter(k[i], publicKey[i]); }
      }
    }
  }

  /** Equal, or the capital and the small form of one letter. */
  predicate SameLetter(c: char, d: char) {
    || c == d
    || ('A' <= c <= 'Z' && d as int == c as int + 32)
    || ('A' <= d <= 'Z' && c as int == d as int + 32)
  }

  predicate SameLetters(s: string, t: string)
    requires |s| == |t|
  {
    forall i :: 0 <= i < |s| ==> SameLetter(s[i], t[i])
  }

  lemma ClaimsCheckIff(b: EvidenceBundle)
    ensures var r, p := b.report, b.receipt.payload;
            ReceiptMatchesReport(b) <==>
              && b.schemaVersion == "1.0.0" && p.receiptVersion == "1.0.0" && b.receipt.algorithm == "Ed25519"
              && p.runId == r.runId && p.targetId == r.target.id
              && p.methodologyVersion == r.score.methodologyVersion && p.seedCommitment == r.plan.seedCommitment
              && (r.target.controlled ==> p.mode == "active-controlled")
              && (!r.target.controlled && (exists t :: t in r.plan.trials && t.active && t.authorizationRequired)
                  ==> p.mode == "active-external")
              && (!r.target.controlled && (forall t :: t in r.plan.trials ==> !(t.active && t.authorizationRequired))
                  ==> p.mode == "passive-external")
              && (|b.receipt.publicKey| >= 16 ==> p.keyId == "ed25519:" + b.receipt.publicKey[..16])
              && (|b.receipt.publicKey| < 16 ==> p.keyId == "ed25519:" + b.receipt.publicKey)
              && p.scoreBasisPoints as real - 0.5 <= r.score.overall * 100.0 < p.scoreBasisPoints as real + 0.5
              && p.coverageBasisPoints as real - 0.5 <= r.score.coverage * 100.0 < p.coverageBasisPoints as real + 0.5
  {
    hide RoundInt;
    var r, p, k := b.report, b.receipt.payload, b.receipt.publicKey;
    RoundIntIff(r.score.overall * 100.0, p.scoreBasisPoints);
    RoundIntIff(r.score.coverage * 100.0, p.coverageBasisPoints);
    ModeIff(r, p.mode);
    assert |k| <= 16 ==> k[..|k|] == k;
  }

  lemma RoundIntIff(x: real, n: int)
    ensures n == RoundInt(x) <==> n as real - 0.5 <= x < n as real + 0.5
  {}

  lemma ModeIff(r: Report, mode: string)
    ensures mode == ModeOf(r) <==>
              && (r.target.controlled ==> mode == "active-controlled")
              && (!r.target.controlled && (exists t :: t in r.plan.trials && t.active && t.authorizationRequired)
                  ==> mode == "active-external")
              && (!r.target.controlled && (forall t :: t in r.plan.trials ==> !(t.active && t.authorizationRequired))
                  ==> mode == "passive-external")
  {
    if t :| t in r.plan.trials && t.active && t.authorizationRequired {
      var i :| 0 <= i < |r.plan.trials| && r.plan.trials[i] == t;
    } else {
      forall i | 0 <= i < |r.plan.trials|
        ensures !(r.plan.trials[i].active && r.plan.trials[i].authorizationRequired)
      {
        assert r.plan.trials[i] in r.plan.trials;
      }
    }
  }

  /** 0x and so many hexadecimal digits, in either case. */
  predicate HexText(s: string, digits: nat) {
    && |s| == digits + 2 && s[0] == '0' && s[1] in {'x', 'X'}
    && forall i :: 2 <= i < |s| ==> '0' <= s[i] <= '9' || 'a' <= s[i] <= 'f' || 'A' <= s[i] <= 'F'
  }

  lemma HexWordIff(s: string, digits: nat)
    ensures HexWord(s, digits) <==> HexText(s, digits)
  {}

  lemma AttachmentCheckIff(env: Env, p: Payload, a: Attachment)
    ensures AttachmentBinds(env, p, a) <==>
              && a.chainId == Some(84532)
              && a.easContract.Some? && HexText(a.easContract.value, 40)
              && a.schemaUid.Some? && HexText(a.schemaUid.value, 64)
              && a.uid.Some? && HexText(a.uid.value, 64)
              && a.transactionHash.Some? && HexText(a.transactionHash.value, 64)
              && env.parseTime(p.issuedAt).Some?
              && a.payloadHash == Some(env.h.json(VBinding(Binding(
                   84532, Lower(a.easContract.value), Lower(a.schemaUid.value), p.targetId, p.planHash,
                   p.methodologyVersion, p.scoreBasisPoints, p.coverageBasisPoints, p.evidenceRoot,
                   if a.reportURI.Some? then a.reportURI.value else "", env.parseTime(p.issuedAt).value / 1000))))
  {
    hide HexWord, HexText, Lower;
    EmptyIsNoHex(40);
    EmptyIsNoHex(64);
    HexWordIff(GetOr(a.easContract, ""), 40);
    HexWordIff(GetOr(a.schemaUid, ""), 64);
    HexWordIff(GetOr(a.uid, ""), 64);
    HexWordIff(GetOr(a.transactionHash, ""), 64);
  }

  lemma EmptyIsNoHex(digits: nat)
    ensures !HexText("", digits)
  {}

  // ---- Acceptance ----

  lemma AllChecksIff(env: Env, b: EvidenceBundle, keys: Option<seq<string>>)
    ensures Accepts(env, b, keys) <==>
              && ChainCheck(env.h, b)
              && ItemHashes(env.h, b.report.evidence) == b.receipt.payload.evidenceItemHashes
              && RootCheck(env.h, b)
              && env.h.json(VReport(b.report)) == b.receipt.payload.reportHash
              && PlanCheck(env.h, b) && SeedOpens(env.h, b.report)
              && ProvenanceMatches(b.report, b.receipt.payload) && Deterministic(env, b.report)
              && ReceiptMatchesReport(b)
              && env.verifies(b.receipt.publicKey, b.receipt.payload, b.receipt.signature)
              && Trusts(keys, b.receipt.publicKey)
              && (b.attestation.Some? && b.attestation.value.status == Anchored ==>
                    AttachmentBinds(env, b.receipt.payload, b.attestation.value))
  {
    hide ChainCheck, ItemHashes, RootCheck, PlanCheck, SeedOpens, ProvenanceMatches, Deterministic,
         ReceiptMatchesReport, Trusts, AttachmentBinds, FirstInvalid;
    var cs := Checks(env, b, keys);
    if Accepts(env, b, keys) {
      assert cs[0].valid && cs[1].valid && cs[2].valid && cs[3].valid && cs[4].valid && cs[5].valid;
      assert cs[6].valid && cs[7].valid && cs[8].valid && cs[9].valid && cs[10].valid;
      if b.attestation.Some? && b.attestation.value.status == Anchored { assert cs[11].valid; }
    }
  }

  /** A bundle is accepted exactly when its signature verifies under the receipt's key, the
      key is one of the trusted ones up to the case of letters, every hash, root, claim
      and seed in the signed payload is that of the bundle's own content, the verdict
      recomputes, and an anchored attachment is bound to the payload. */
  lemma AcceptedIff(env: Env, b: EvidenceBundle, keys: Option<seq<string>>)
    ensures var r, p, legacy := b.report, b.receipt.payload, b.report.score.methodologyVersion == "agenttrial-1.0.0";
            Accepts(env, b, keys) <==>
              && env.verifies(b.receipt.publicKey, p, b.receipt.signature)
              && keys.Some?
              && (exists k :: k in keys.value && |k| == |b.receipt.publicKey| && SameLetters(k, b.receipt.publicKey))
              && (exists n: nat :: ChainUpTo(env.h, b.events, p.eventChainHead, n))
              && |p.evidenceItemHashes| == |r.evidence|
              && (forall i :: 0 <= i < |r.evidence| ==> p.evidenceItemHashes[i] == env.h.json(VItem(r.evidence[i])))
              && p.evidenceRoot == b.evidenceRoot == EvidenceRoot.Root(env.h, r.evidence)
              && p.reportHash == env.h.json(VReport(r))
              && p.planHash == r.planHash == env.h.json(VPlan(r.plan))
              && (if r.seedReveal.Some? && r.seedReveal.value != ""
                  then r.plan.seedCommitment == env.h.json(VSeed(r.seedReveal.value, r.runId)) else legacy)
              && (!legacy ==> r.provenance.Some? && p.evaluatorBuild == r.provenance.value.evaluatorBuild
                              && p.assertionRegistryHash == r.provenance.value.assertionRegistryHash
                              && p.reportSchema == r.provenance.value.reportSchema)
              && env.h.json(VAssertions(Recomputed(env, r.plan.trials, r.observations)))
                 == env.h.json(VAssertions(r.assertions))
              && env.h.json(VScore(RecomputedScore(env, r))) == env.h.json(VScore(r.score))
              && ReceiptMatchesReport(b)
              && (b.attestation.Some? && b.attestation.value.status == Anchored ==>
                    AttachmentBinds(env, p, b.attestation.value))
  {
    hide ChainCheck, ChainUpTo, ItemHashes, ReceiptMatchesReport, Trusts, AttachmentBinds, Accepts, Recomputed,
         RecomputedScore, EvidenceRoot.Root, SameLetters;
    AllChecksIff(env, b, keys);
    ChainCheckIff(env.h, b);
    ItemsCheckIff(env.h, b);
    TrustIff(keys, b.receipt.publicKey);
  }

  /** An accepted bundle under another signature that does not verify: the signature is
      what the verifier reports. */
  lemma ForgedSignatureIsReported(env: Env, b: EvidenceBundle, keys: Option<seq<string>>, signature: string)
    requires Accepts(env, b, keys) && !env.verifies(b.receipt.publicKey, b.receipt.payload, signature)
    ensures var forged := b.(receipt := b.receipt.(signature := signature));
            !Accepts(env, forged, keys) && FirstInvalid(Checks(env, forged, keys)) == Some(SignatureCheck)
  {
    hide ItemHashes, EvidenceRoot.Root, SeedOpens, ProvenanceMatches, Deterministic, Trusts, AttachmentBinds,
         FirstInvalid, ModeOf, KeyId, RoundInt, LinkedLength, Head;
    var forged := b.(receipt := b.receipt.(signature := signature));
    var cs, cs' := Checks(env, b, keys), Checks(env, forged, keys);
    AllChecksIff(env, b, keys);
    assert forall j :: 0 <= j < 9 ==> cs'[j].valid;
    assert cs'[9] == Check(SignatureCheck, false);
    FirstIs(cs', 9);
  }

  /** Likewise a verifier that is given no trusted keys, or others, reports the signer. */
  lemma UntrustedSignerIsReported(env: Env, b: EvidenceBundle, keys: Option<seq<string>>, others: seq<string>)
    requires Accepts(env, b, keys)
    requires forall k :: k in others && |k| == |b.receipt.publicKey| ==> !SameLetters(k, b.receipt.publicKey)
    ensures FirstInvalid(Checks(env, b, None)) == Some(TrustedSignerCheck)
    ensures FirstInvalid(Checks(env, b, Some(others))) == Some(TrustedSignerCheck)
  {
    hide ItemHashes, RootCheck, PlanCheck, SeedOpens, ProvenanceMatches, Deterministic, AttachmentBinds, Trusts,
         FirstInvalid, ReceiptMatchesReport, ChainCheck, SameLetters;
    AllChecksIff(env, b, keys);
    TrustIff(None, b.receipt.publicKey);
    TrustIff(Some(others), b.receipt.publicKey);
    var cs, cs' := Checks(env, b, None), Checks(env, b, Some(others));
    assert forall j :: 0 <= j < 10 ==> cs[j].valid && cs'[j].valid;
    FirstIs(cs, 10);
    FirstIs(cs', 10);
  }

  /** The order in which the checks are made, hence reported. */
  lemma ChecksInOrder(env: Env, b: EvidenceBundle, keys: Option<seq<string>>)
    ensures var cs := Checks(env, b, keys);
            && |cs| == (if b.attestation.Some? && b.attestation.value.status == Anchored then 12 else 11)
            && forall i :: 0 <= i < |cs| ==>
                 cs[i].name == [EventChainCheck, EvidenceItemsCheck, EvidenceRootCheck, ReportCheck, SealedPlanCheck,
                                SeedOpeningCheck, ProvenanceCheck, VerdictCheck, ReceiptClaimsCheck, SignatureCheck,
                                TrustedSignerCheck, AttachmentCheck][i]
  {
    hide ChainCheck, ItemHashes, RootCheck, PlanCheck, SeedOpens, ProvenanceMatches, Deterministic,
         ReceiptMatchesReport, Trusts, AttachmentBinds;
  }

  lemma FirstIs(checks: seq<Check>, k: nat)
    requires k < |checks| && !checks[k].valid && forall j :: 0 <= j < k ==> checks[j].valid
    ensures FirstInvalid(checks) == Some(checks[k].name)
  {
    hide FirstInvalid;
    var first := FirstInvalid(checks);
    var i :| 0 <= i < |checks| && checks[i] == Check(first.value, false) && forall j :: 0 <= j < i ==> checks[j].valid;
    assert i == k;
  }

  /** Which keys the registry lends to a receipt of a given date: not revoked, and the date
      within their period, both ends included. */
  lemma RegistryKeyIff(env: Env, records: seq<KeyRecord>, issuedAt: string, publicKey: string)
    ensures Trusts(Some(TrustedPublicKeysAt(env, records, issuedAt)), publicKey) <==>
              && env.parseTime(issuedAt).Some?
              && exists i :: 0 <= i < |records| && ValidFor(env, records[i], publicKey, env.parseTime(issuedAt).value)
  {
    hide TrustedPublicKeysAt;
    var keys := TrustedPublicKeysAt(env, records, issuedAt);
    TrustIff(Some(keys), publicKey);
    if Trusts(Some(keys), publicKey) {
      var k :| k in keys && |k| == |publicKey| && SameLetters(k, publicKey);
      var i :| 0 <= i < |records| && TrustedAt(env, records[i], env.parseTime(issuedAt).value)
               && Lower(records[i].publicKey) == k;
      LowerSame(records[i].publicKey, publicKey);
      assert ValidFor(env, records[i], publicKey, env.parseTime(issuedAt).value);
    }
    if env.parseTime(issuedAt).Some? {
      forall i | 0 <= i < |records| && ValidFor(env, records[i], publicKey, env.parseTime(issuedAt).value)
        ensures Trusts(Some(keys), publicKey)
      {
        LowerSame(records[i].publicKey, publicKey);
        assert Lower(records[i].publicKey) in keys;
      }
    }
  }

  predicate ValidFor(env: Env, k: KeyRecord, publicKey: string, issued: int) {
    && |k.publicKey| == |publicKey| && SameLetters(k.publicKey, publicKey)
    && k.status in {ActiveKey, PreviousKey} && k.revokedAt in {None, Some("")}
    && env.parseTime(k.notBefore).Some? && env.parseTime(k.notBefore).value <= issued
    && (k.notAfter in {None, Some("")} ||
        (env.parseTime(k.notAfter.value).Some? && issued <= env.parseTime(k.notAfter.value).value))
  }

  lemma LowerSame(k: string, publicKey: string)
    ensures |Lower(k)| == |k|
    ensures |k| == |publicKey| ==> (SameLetters(k, publicKey) <==> SameLetters(Lower(k), publicKey))
  {
    LowerIs(k);
    if |k| == |publicKey| {
      if SameLetters(k, publicKey) {
        forall i | 0 <= i < |k| ensures SameLetter(Lower(k)[i], publicKey[i]) { assert SameLetter(k[i], publicKey[i]); }
      }
      if SameLetters(Lower(k), publicKey) {
        forall i | 0 <= i < |k| ensures SameLetter(k[i], publicKey[i]) {
          assert SameLetter(Lower(k)[i], publicKey[i]);
        }
      }
    }
  }

  // ---- The recomputed verdict ----

  lemma {:induction false} EvaluatedAre(env: Env, specs: seq<AssertionSpec>, o: Observation)
    ensures |EvaluateAssertions(env, specs, o)| == |specs|
    ensures forall i :: 0 <= i < |specs| ==>
              EvaluateAssertions(env, specs, o)[i] ==
              AssertionResult(
                specs[i].id, o.trialId, specs[i].dimension, specs[i].weight, env.judge(specs[i], o).passed,
                specs[i].description, env.judge(specs[i], o).actual, specs[i].expected, o.evidenceIds)
  {
    if specs != [] { EvaluatedAre(env, specs[1..], o); }
  }

  /** The earliest observation of a trial is the one that counts. */
  lemma {:induction false} EarliestObservationCounts(observations: seq<Observation>, i: nat)
    requires i < |observations| && forall j :: 0 <= j < i ==> observations[j].trialId != observations[i].trialId
    ensures FindObservation(observations, observations[i].trialId) == Some(observations[i])
  {
    if i > 0 { EarliestObservationCounts(observations[1..], i - 1); }
  }

  /** The verdict is the concatenation, in plan order, of the evaluations of the trials
      that were observed. */
  lemma RecomputedInPlanOrder(
    env: Env, before: seq<Trial>, t: Trial, after: seq<Trial>, os: seq<Observation>)
    ensures Recomputed(env, before + [t] + after, os) ==
            Recomputed(env, before, os)
            + (if exists o :: o in os && o.trialId == t.id
               then EvaluateAssertions(env, t.assertions, FindObservation(os, t.id).value) else [])
            + Recomputed(env, after, os)
    ensures Recomputed(env, [], os) == []
  {
    hide EvaluateAssertions;
    RecomputedConcat(env, before + [t], after, os);
    RecomputedConcat(env, before, [t], os);
    assert Recomputed(env, [t][1..], os) == [];
  }

  lemma {:induction false} RecomputedConcat(env: Env, a: seq<Trial>, b: seq<Trial>, os: seq<Observation>)
    ensures Recomputed(env, a + b, os) == Recomputed(env, a, os) + Recomputed(env, b, os)
  {
    hide EvaluateAssertions, FindObservation;
    if a == [] {
      assert a + b == b;
    } else {
      RecomputedConcat(env, a[1..], b, os);
      assert (a + b)[1..] == a[1..] + b;
    }
  }

  lemma {:induction false} TestedClaimsAre(trials: seq<Trial>, os: seq<Observation>, claim: string)
    ensures claim in TestedClaims(trials, os) <==>
              exists t, o :: t in trials && o in os && o.trialId == t.id && o.status != NotTested && claim in t.claimIds
  {
    if trials != [] {
      var first, rest := trials[0], trials[1..];
      TestedClaimsAre(rest, os, claim);
      TestedIff(os, first.id);
      assert forall t :: t in trials <==> t == first || t in rest;
    }
  }

  lemma TestedIff(os: seq<Observation>, trialId: string)
    ensures Tested(os, trialId) <==> exists o :: o in os && o.trialId == trialId && o.status != NotTested
  {
    if o :| o in os && o.trialId == trialId && o.status != NotTested {
      var i :| 0 <= i < |os| && os[i] == o;
    }
  }
}
