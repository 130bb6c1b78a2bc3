/** The portable evidence bundle of packages/research/src/tamper.ts: creation, first-mismatch
    verification, and what each class of tampering is reported as. */
module Tamper {
  import opened Wrappers

  /** A JSON document with its keys in order: JSON.stringify keeps that order. */
  datatype Doc =
    | DNull
    | DBool(flag: bool)
    | DNumber(number: int)
    | DString(text: string)
    | DList(items: seq<Doc>)
    | DRecord(fields: seq<(string, Doc)>)

  datatype Event = Event(index: int, kind: string, data: Doc, previousHash: string, hash: string)

  datatype RawEvent = RawEvent(kind: string, data: Doc)

  datatype Assertion = Assertion(id: string, passed: bool)

  datatype SignedPayload = SignedPayload(
    planHash: string, eventRoot: string, assertionsHash: string, evaluatorBuild: string, evidenceRoot: string,
    signerPublicKey: string, anchorMetadataHash: string)

  datatype Bundle = Bundle(
    plan: Doc, planHash: string, events: seq<Event>, assertions: seq<Assertion>, assertionsHash: string,
    evaluatorBuild: string, evidenceRoot: string, signerPublicKey: string, anchorMetadata: Doc,
    anchorMetadataHash: string, signedPayload: SignedPayload, signature: string)

  /** SHA-256 of the serialised document, and signature verification. */
  datatype Env = Env(digest: Doc -> string, verifies: (string, SignedPayload, string) -> bool)

  datatype Mismatch =
    | PlanHash | EventIndex(k: nat) | EventPreviousHash(k: nat) | EventHash(k: nat) | AssertionsHash | EvidenceRoot
    | SignedPlanHash | SignedEventRoot | SignedAssertionsHash | EvaluatorBuild | SignerPublicKey
    | AnchorMetadataHash | SignedAnchorMetadataHash | Signature

  const GENESIS := "GENESIS"

  /** Digests are 64 characters long, so none is the string GENESIS. */
  ghost predicate Digests(env: Env) { forall d :: |env.digest(d)| == 64 }

  ghost predicate CollisionFree(env: Env, docs: set<Doc>) {
    forall x, y :: x in docs && y in docs && env.digest(x) == env.digest(y) ==> x == y
  }

  function EventDoc(e: Event): Doc {
    DRecord([("index", DNumber(e.index)), ("type", DString(e.kind)), ("data", e.data),
             ("previousHash", DString(e.previousHash))])
  }

  function AssertionDocs(assertions: seq<Assertion>): (docs: seq<Doc>)
    ensures |docs| == |assertions|
    ensures forall i :: 0 <= i < |docs| ==>
              docs[i] == DRecord([("id", DString(assertions[i].id)), ("passed", DBool(assertions[i].passed))])
  {
    if assertions == [] then []
    else [DRecord([("id", DString(assertions[0].id)), ("passed", DBool(assertions[0].passed))])]
         + AssertionDocs(assertions[1..])
  }

  function AssertionsDoc(assertions: seq<Assertion>): Doc { DList(AssertionDocs(assertions)) }

  function RootsDoc(eventRoot: string, assertionsHash: string): Doc {
    DRecord([("eventRoot", DString(eventRoot)), ("assertionsHash", DString(assertionsHash))])
  }

  lemma EventDocInjective(a: Event, b: Event)
    requires EventDoc(a) == EventDoc(b)
    ensures a.index == b.index && a.kind == b.kind && a.data == b.data && a.previousHash == b.previousHash
  {
    var x, y := EventDoc(a).fields, EventDoc(b).fields;
    assert x[0] == y[0] && x[1] == y[1] && x[2] == y[2] && x[3] == y[3];
  }

  lemma RootsDocInjective(r: string, a: string, r': string, a': string)
    requires RootsDoc(r, a) == RootsDoc(r', a')
    ensures r == r' && a == a'
  {
    var x, y := RootsDoc(r, a).fields, RootsDoc(r', a').fields;
    assert x[0] == y[0] && x[1] == y[1];
  }

  lemma AssertionsDocInjective(a: seq<Assertion>, b: seq<Assertion>)
    requires AssertionsDoc(a) == AssertionsDoc(b)
    ensures a == b
  {
    var x, y := AssertionDocs(a), AssertionDocs(b);
    assert |a| == |b|;
    forall i | 0 <= i < |a| ensures a[i] == b[i] {
      assert x[i].fields[0] == y[i].fields[0] && x[i].fields[1] == y[i].fields[1];
    }
  }

  // ---- Verification ----

  function Last(events: seq<Event>): string { if events == [] then GENESIS else events[|events| - 1].hash }

  predicate EventOk(env: Env, events: seq<Event>, k: nat)
    requires k < |events|
  {
    && events[k].index == k
    && events[k].previousHash == Last(events[..k])
    && env.digest(EventDoc(events[k])) == events[k].hash
  }

  function EventComplaint(env: Env, events: seq<Event>, k: nat): Mismatch
    requires k < |events|
  {
    if events[k].index != k then EventIndex(k)
    else if events[k].previousHash != Last(events[..k]) then EventPreviousHash(k)
    else EventHash(k)
  }

  /** The complaint about the first bad event at or after position k. */
  function ScanFrom(env: Env, events: seq<Event>, k: nat): Option<Mismatch>
    requires k <= |events|
    decreases |events| - k
  {
    if k == |events| then None
    else if !EventOk(env, events, k) then Some(EventComplaint(env, events, k))
    else ScanFrom(env, events, k + 1)
  }

  function AfterEvents(env: Env, b: Bundle): Option<Mismatch> {
    var root, p := Last(b.events), b.signedPayload;
    if env.digest(AssertionsDoc(b.assertions)) != b.assertionsHash then Some(AssertionsHash)
    else if env.digest(RootsDoc(root, b.assertionsHash)) != b.evidenceRoot then Some(EvidenceRoot)
    else if b.planHash != p.planHash then Some(SignedPlanHash)
    else if root != p.eventRoot then Some(SignedEventRoot)
    else if b.assertionsHash != p.assertionsHash then Some(SignedAssertionsHash)
    else if b.evaluatorBuild != p.evaluatorBuild then Some(EvaluatorBuild)
    else if b.evidenceRoot != p.evidenceRoot then Some(EvidenceRoot)
    else if b.signerPublicKey != p.signerPublicKey then Some(SignerPublicKey)
    else if env.digest(b.anchorMetadata) != b.anchorMetadataHash then Some(AnchorMetadataHash)
    else if b.anchorMetadataHash != p.anchorMetadataHash then Some(SignedAnchorMetadataHash)
    else if !env.verifies(b.signerPublicKey, p, b.signature) then Some(Signature)
    else None
  }

  /** None: the bundle is accepted. */
  function FirstMismatch(env: Env, b: Bundle): Option<Mismatch> {
    if env.digest(b.plan) != b.planHash then Some(PlanHash)
    else
      var scan := ScanFrom(env, b.events, 0);
      if scan.Some? then scan else AfterEvents(env, b)
  }

  predicate Accepts(env: Env, b: Bundle) { FirstMismatch(env, b).None? }

  method VerifyPortable(env: Env, bundle: Bundle) returns (firstMismatch: Option<Mismatch>)
    ensures firstMismatch == FirstMismatch(env, bundle)
  {
    if env.digest(bundle.plan) != bundle.planHash { return Some(PlanHash); }
    var previousHash := GENESIS;
    var position := 0;
    while position < |bundle.events|
      invariant 0 <= position <= |bundle.events|
      invariant previousHash == Last(bundle.events[..position])
      invariant ScanFrom(env, bundle.events, 0) == ScanFrom(env, bundle.events, position)
    {
      var event := bundle.events[position];
      if event.index != position { return Some(EventIndex(position)); }
      if event.previousHash != previousHash { return Some(EventPreviousHash(position)); }
      if env.digest(EventDoc(event)) != event.hash { return Some(EventHash(position)); }
      assert EventOk(env, bundle.events, position);
      previousHash := event.hash;
      position := position + 1;
      assert bundle.events[..position][position - 1] == event;
    }
    assert bundle.events[..position] == bundle.events;
    var p := bundle.signedPayload;
    if env.digest(AssertionsDoc(bundle.assertions)) != bundle.assertionsHash { return Some(AssertionsHash); }
    if env.digest(RootsDoc(previousHash, bundle.assertionsHash)) != bundle.evidenceRoot { return Some(EvidenceRoot); }
    if bundle.planHash != p.planHash { return Some(SignedPlanHash); }
    if previousHash != p.eventRoot { return Some(SignedEventRoot); }
    if bundle.assertionsHash != p.assertionsHash { return Some(SignedAssertionsHash); }
    if bundle.evaluatorBuild != p.evaluatorBuild { return Some(EvaluatorBuild); }
    if bundle.evidenceRoot != p.evidenceRoot { return Some(EvidenceRoot); }
    if bundle.signerPublicKey != p.signerPublicKey { return Some(SignerPublicKey); }
    if env.digest(bundle.anchorMetadata) != bundle.anchorMetadataHash { return Some(AnchorMetadataHash); }
    if bundle.anchorMetadataHash != p.anchorMetadataHash { return Some(SignedAnchorMetadataHash); }
    firstMismatch := if env.verifies(bundle.signerPublicKey, p, bundle.signature) then None else Some(Signature);
  }

  // ---- Creation ----

  function SealedEvent(env: Env, events: seq<Event>, raw: RawEvent): Event {
    var unsigned := Event(|events|, raw.kind, raw.data, Last(events), "");
    unsigned.(hash := env.digest(EventDoc(unsigned)))
  }

  lemma ExtendChain(env: Env, events: seq<Event>, raw: RawEvent)
    requires forall j :: 0 <= j < |events| ==> EventOk(env, events, j)
    ensures forall j :: 0 <= j <= |events| ==> EventOk(env, events + [SealedEvent(env, events, raw)], j)
  {
    var e := SealedEvent(env, events, raw);
    var longer := events + [e];
    assert EventDoc(e) == EventDoc(e.(hash := ""));
    forall j | 0 <= j < |longer| ensures EventOk(env, longer, j) {
      if j < |events| { assert EventOk(env, events, j); }
      assert longer[..j] == events[..j];
      assert events[..|events|] == events;
    }
  }

  /** For every plan, event list, assertion list and metadata, the created bundle is
      accepted, provided the signature verifies. */
  method CreateBundle(
    env: Env, sign: SignedPayload -> string, signerPublicKey: string, plan: Doc, rawEvents: seq<RawEvent>,
    assertions: seq<Assertion>, evaluatorBuild: string, anchorMetadata: Doc) returns (b: Bundle)
    requires forall p :: env.verifies(signerPublicKey, p, sign(p))
    ensures Accepts(env, b)
    ensures b.plan == plan && b.assertions == assertions && b.anchorMetadata == anchorMetadata
    ensures b.evaluatorBuild == evaluatorBuild && b.signerPublicKey == signerPublicKey
    ensures b.signature == sign(b.signedPayload)
    ensures |b.events| == |rawEvents|
    ensures forall i :: 0 <= i < |rawEvents| ==>
              b.events[i].kind == rawEvents[i].kind && b.events[i].data == rawEvents[i].data
  {
    var events: seq<Event> := [];
    for index := 0 to |rawEvents|
      invariant |events| == index
      invariant forall j :: 0 <= j < index ==> EventOk(env, events, j)
      invariant forall i :: 0 <= i < index ==>
                  events[i].kind == rawEvents[i].kind && events[i].data == rawEvents[i].data
    {
      ExtendChain(env, events, rawEvents[index]);
      events := events + [SealedEvent(env, events, rawEvents[index])];
    }
    ScanOk(env, events, 0);
    var root := Last(events);
    var assertionsHash := env.digest(AssertionsDoc(assertions));
    var evidenceRoot := env.digest(RootsDoc(root, assertionsHash));
    var payload := SignedPayload(env.digest(plan), root, assertionsHash, evaluatorBuild, evidenceRoot,
                                 signerPublicKey, env.digest(anchorMetadata));
    b := Bundle(plan, payload.planHash, events, assertions, assertionsHash, evaluatorBuild, evidenceRoot,
                signerPublicKey, anchorMetadata, payload.anchorMetadataHash, payload, sign(payload));
  }

  lemma {:induction false} ScanOk(env: Env, events: seq<Event>, k: nat)
    requires k <= |events|
    ensures ScanFrom(env, events, k).None? <==> forall j :: k <= j < |events| ==> EventOk(env, events, j)
    decreases |events| - k
  {
    if k < |events| { ScanOk(env, events, k + 1); }
  }

  lemma {:induction false} ScanFinds(env: Env, events: seq<Event>, k: nat, bad: nat)
    requires k <= bad < |events| && !EventOk(env, events, bad)
    requires forall j :: k <= j < bad ==> EventOk(env, events, j)
    ensures ScanFrom(env, events, k) == Some(EventComplaint(env, events, bad))
    decreases bad - k
  {
    if k < bad { ScanFinds(env, events, k + 1, bad); }
  }

  // ---- Localisation, for every index and length ----

  lemma AcceptedEvents(env: Env, b: Bundle)
    requires Accepts(env, b)
    ensures forall j :: 0 <= j < |b.events| ==> EventOk(env, b.events, j)
    ensures env.digest(b.plan) == b.planHash && AfterEvents(env, b).None?
  {
    ScanOk(env, b.events, 0);
  }

  lemma SamePrefixOk(env: Env, a: seq<Event>, b: seq<Event>, n: nat)
    requires n <= |a| && n <= |b| && a[..n] == b[..n]
    requires forall j :: 0 <= j < n ==> EventOk(env, a, j)
    ensures forall j :: 0 <= j < n ==> EventOk(env, b, j)
  {
    forall j | 0 <= j < n ensures EventOk(env, b, j) {
      assert EventOk(env, a, j);
      assert a[j] == a[..n][j] && b[j] == b[..n][j];
      assert a[..j] == a[..n][..j] == b[..j];
    }
  }

  /** Changing the type or the data of event k is reported at that event's hash. */
  lemma EditedEventIsLocated(env: Env, b: Bundle, k: nat, kind: string, data: Doc)
    requires Accepts(env, b) && k < |b.events| && (kind != b.events[k].kind || data != b.events[k].data)
    requires CollisionFree(env, {EventDoc(b.events[k]), EventDoc(b.events[k].(kind := kind, data := data))})
    ensures FirstMismatch(env, b.(events := b.events[k := b.events[k].(kind := kind, data := data)])) ==
            Some(EventHash(k))
  {
    AcceptedEvents(env, b);
    var edited := b.events[k].(kind := kind, data := data);
    var events := b.events[k := edited];
    assert EventOk(env, b.events, k);
    if env.digest(EventDoc(edited)) == edited.hash { EventDocInjective(edited, b.events[k]); }
    SamePrefixOk(env, b.events, events, k);
    assert events[..k] == b.events[..k];
    ScanFinds(env, events, 0, k);
  }

  /** Deleting an event that is not the last is reported at the index of its successor. */
  lemma DeletedEventIsLocated(env: Env, b: Bundle, k: nat)
    requires Accepts(env, b) && k + 1 < |b.events|
    ensures FirstMismatch(env, b.(events := b.events[..k] + b.events[k + 1..])) == Some(EventIndex(k))
  {
    AcceptedEvents(env, b);
    var events := b.events[..k] + b.events[k + 1..];
    assert events[k] == b.events[k + 1] && EventOk(env, b.events, k + 1);
    SamePrefixOk(env, b.events, events, k);
    ScanFinds(env, events, 0, k);
  }

  /** Swapping two events is reported at the index of the earlier one. */
  lemma SwappedEventsAreLocated(env: Env, b: Bundle, i: nat, j: nat)
    requires Accepts(env, b) && i < j < |b.events|
    ensures FirstMismatch(env, b.(events := b.events[i := b.events[j]][j := b.events[i]])) == Some(EventIndex(i))
  {
    AcceptedEvents(env, b);
    var events := b.events[i := b.events[j]][j := b.events[i]];
    assert events[i] == b.events[j] && EventOk(env, b.events, j);
    assert events[..i] == b.events[..i];
    SamePrefixOk(env, b.events, events, i);
    ScanFinds(env, events, 0, i);
  }

  lemma DifferentHashes(env: Env, x: Event, y: Event)
    requires env.digest(EventDoc(x)) == x.hash && env.digest(EventDoc(y)) == y.hash && x.index != y.index
    requires CollisionFree(env, {EventDoc(x), EventDoc(y)})
    ensures x.hash != y.hash
  {
    if EventDoc(x) == EventDoc(y) { EventDocInjective(x, y); }
  }

  /** Deleting the last event leaves a good chain with another head, so the evidence
      root is the first thing that does not fit. */
  lemma DeletedLastEventIsLocated(env: Env, b: Bundle)
    requires Accepts(env, b) && b.events != [] && Digests(env)
    requires CollisionFree(env, {RootsDoc(Last(b.events), b.assertionsHash),
                                 RootsDoc(Last(b.events[..|b.events| - 1]), b.assertionsHash)})
    requires |b.events| > 1 ==> CollisionFree(env,
             {EventDoc(b.events[|b.events| - 1]), EventDoc(b.events[|b.events| - 2])})
    ensures FirstMismatch(env, b.(events := b.events[..|b.events| - 1])) == Some(EvidenceRoot)
  {
    AcceptedEvents(env, b);
    var n := |b.events|;
    var events := b.events[..n - 1];
    assert EventOk(env, b.events, n - 1);
    SamePrefixOk(env, b.events, events, n - 1);
    ScanOk(env, events, 0);
    if n > 1 {
      assert EventOk(env, b.events, n - 2);
      assert Last(events) == b.events[n - 2].hash;
      DifferentHashes(env, b.events[n - 1], b.events[n - 2]);
    } else {
      assert Last(events) == GENESIS;
    }
    if env.digest(RootsDoc(Last(events), b.assertionsHash)) == b.evidenceRoot {
      RootsDocInjective(Last(events), b.assertionsHash, Last(b.events), b.assertionsHash);
    }
  }

  /** Each remaining class of tampering is reported under the field that was changed. */
  lemma ChangedFieldIsLocated(env: Env, b: Bundle, changed: Bundle)
    requires Accepts(env, b)
    requires CollisionFree(env, {b.plan, changed.plan, b.anchorMetadata, changed.anchorMetadata,
                                 AssertionsDoc(b.assertions), AssertionsDoc(changed.assertions)})
    ensures changed == b.(plan := changed.plan) && changed.plan != b.plan
            ==> FirstMismatch(env, changed) == Some(PlanHash)
    ensures changed == b.(assertions := changed.assertions) && changed.assertions != b.assertions
            ==> FirstMismatch(env, changed) == Some(AssertionsHash)
    ensures changed == b.(evidenceRoot := changed.evidenceRoot) && changed.evidenceRoot != b.evidenceRoot
            ==> FirstMismatch(env, changed) == Some(EvidenceRoot)
    ensures changed == b.(evaluatorBuild := changed.evaluatorBuild) && changed.evaluatorBuild != b.evaluatorBuild
            ==> FirstMismatch(env, changed) == Some(EvaluatorBuild)
    ensures changed == b.(signerPublicKey := changed.signerPublicKey) && changed.signerPublicKey != b.signerPublicKey
            ==> FirstMismatch(env, changed) == Some(SignerPublicKey)
    ensures changed == b.(anchorMetadata := changed.anchorMetadata) && changed.anchorMetadata != b.anchorMetadata
            ==> FirstMismatch(env, changed) == Some(AnchorMetadataHash)
  {
    AcceptedEvents(env, b);
    if AssertionsDoc(changed.assertions) == AssertionsDoc(b.assertions) {
      AssertionsDocInjective(changed.assertions, b.assertions);
    }
    if changed.events == b.events { ScanOk(env, changed.events, 0); }
  }

  /** Touching an event's position, its link or its recorded hash is reported as just that. */
  lemma TouchedEventIsLocated(env: Env, b: Bundle, k: nat, index: int, link: string, hash: string)
    requires Accepts(env, b) && k < |b.events|
    ensures var e := b.events[k];
            && (index != k ==>
                  FirstMismatch(env, b.(events := b.events[k := e.(index := index)])) == Some(EventIndex(k)))
            && (link != e.previousHash ==>
                  FirstMismatch(env, b.(events := b.events[k := e.(previousHash := link)]))
                  == Some(EventPreviousHash(k)))
            && (hash != e.hash ==>
                  FirstMismatch(env, b.(events := b.events[k := e.(hash := hash)])) == Some(EventHash(k)))
  {
    AcceptedEvents(env, b);
    var e := b.events[k];
    assert EventOk(env, b.events, k);
    if index != k { TouchedScan(env, b.events, k, e.(index := index)); }
    if link != e.previousHash { TouchedScan(env, b.events, k, e.(previousHash := link)); }
    if hash != e.hash { TouchedScan(env, b.events, k, e.(hash := hash)); }
  }

  lemma TouchedScan(env: Env, events: seq<Event>, k: nat, e: Event)
    requires k < |events| && forall j :: 0 <= j < k ==> EventOk(env, events, j)
    requires !EventOk(env, events[k := e], k)
    ensures ScanFrom(env, events[k := e], 0) == Some(EventComplaint(env, events[k := e], k))
    ensures events[k := e][..k] == events[..k]
  {
    assert events[k := e][..k] == events[..k];
    SamePrefixOk(env, events, events[k := e], k);
    ScanFinds(env, events[k := e], 0, k);
  }

  /** A signed payload that disagrees with the bundle in one field is reported under that
      field, and a signature that does not verify as the signature. */
  lemma ChangedPayloadIsLocated(env: Env, b: Bundle, text: string, signature: string)
    requires Accepts(env, b)
    ensures var p := b.signedPayload;
            && (text != p.planHash ==>
                  FirstMismatch(env, b.(signedPayload := p.(planHash := text))) == Some(SignedPlanHash))
            && (text != p.eventRoot ==>
                  FirstMismatch(env, b.(signedPayload := p.(eventRoot := text))) == Some(SignedEventRoot))
            && (text != p.assertionsHash ==>
                  FirstMismatch(env, b.(signedPayload := p.(assertionsHash := text))) == Some(SignedAssertionsHash))
            && (text != p.evaluatorBuild ==>
                  FirstMismatch(env, b.(signedPayload := p.(evaluatorBuild := text))) == Some(EvaluatorBuild))
            && (text != p.evidenceRoot ==>
                  FirstMismatch(env, b.(signedPayload := p.(evidenceRoot := text))) == Some(EvidenceRoot))
            && (text != p.signerPublicKey ==>
                  FirstMismatch(env, b.(signedPayload := p.(signerPublicKey := text))) == Some(SignerPublicKey))
            && (text != p.anchorMetadataHash ==>
                  FirstMismatch(env, b.(signedPayload := p.(anchorMetadataHash := text)))
                  == Some(SignedAnchorMetadataHash))
            && (!env.verifies(b.signerPublicKey, p, signature) ==>
                  FirstMismatch(env, b.(signature := signature)) == Some(Signature))
  {
    hide ScanFrom;
    AcceptedEvents(env, b);
    ScanOk(env, b.events, 0);
  }

  /** Acceptance in full. */
  lemma AcceptedIff(env: Env, b: Bundle)
    ensures var p, n := b.signedPayload, |b.events|;
            var head := if n == 0 then "GENESIS" else b.events[n - 1].hash;
            Accepts(env, b) <==>
              && env.verifies(b.signerPublicKey, p, b.signature)
              && b.planHash == env.digest(b.plan) == p.planHash
              && (forall k :: 0 <= k < n ==> InPlace(env, b.events, k))
              && p.eventRoot == head
              && b.assertionsHash == env.digest(AssertionsDoc(b.assertions)) == p.assertionsHash
              && b.evidenceRoot == p.evidenceRoot
              && b.evidenceRoot == env.digest(DRecord([("eventRoot", DString(head)),
                                                       ("assertionsHash", DString(b.assertionsHash))]))
              && b.evaluatorBuild == p.evaluatorBuild && b.signerPublicKey == p.signerPublicKey
              && b.anchorMetadataHash == env.digest(b.anchorMetadata) == p.anchorMetadataHash
  {
    hide ScanFrom, AssertionsDoc;
    ScanOk(env, b.events, 0);
    forall k | 0 <= k < |b.events| ensures EventOk(env, b.events, k) <==> InPlace(env, b.events, k) {
      assert k > 0 ==> b.events[..k][k - 1] == b.events[k - 1];
    }
  }

  predicate InPlace(env: Env, events: seq<Event>, k: nat)
    requires k < |events|
  {
    && events[k].index == k
    && events[k].previousHash == (if k == 0 then "GENESIS" else events[k - 1].hash)
    && events[k].hash == env.digest(DRecord([("index", DNumber(k)), ("type", DString(events[k].kind)),
                                             ("data", events[k].data),
                                             ("previousHash", DString(events[k].previousHash))]))
  }

  // ---- Binding ----

  ghost function EventDocs(events: seq<Event>): set<Doc> { set e | e in events :: EventDoc(e) }

  ghost function BundleDocs(b: Bundle): set<Doc> {
    EventDocs(b.events) + {b.plan, b.anchorMetadata, AssertionsDoc(b.assertions)}
  }

  lemma LastFacts(env: Env, a: seq<Event>)
    requires a != [] && forall j :: 0 <= j < |a| ==> EventOk(env, a, j)
    ensures var x, front := a[|a| - 1], a[..|a| - 1];
            && env.digest(EventDoc(x)) == x.hash == Last(a) && x.previousHash == Last(front)
            && EventDoc(x) in EventDocs(a) && EventDocs(front) <= EventDocs(a)
            && forall j :: 0 <= j < |front| ==> EventOk(env, front, j)
  {
    hide EventDoc;
    var x := a[|a| - 1];
    assert EventOk(env, a, |a| - 1);
    assert x in a;
    SamePrefixOk(env, a, a[..|a| - 1], |a| - 1);
  }

  /** The last hash determines the whole event list, hence its length. */
  lemma {:induction false} LastBindsEvents(env: Env, a: seq<Event>, b: seq<Event>)
    requires (forall j :: 0 <= j < |a| ==> EventOk(env, a, j)) && (forall j :: 0 <= j < |b| ==> EventOk(env, b, j))
    requires Last(a) == Last(b) && Digests(env) && CollisionFree(env, EventDocs(a) + EventDocs(b))
    ensures a == b
    decreases |a|
  {
    hide EventDoc, EventOk, EventDocs;
    if a != [] { LastFacts(env, a); }
    if b != [] { LastFacts(env, b); }
    if a == [] || b == [] {
      assert |GENESIS| == 7;
    } else {
      var x, y := a[|a| - 1], b[|b| - 1];
      EventDocInjective(x, y);
      LastBindsEvents(env, a[..|a| - 1], b[..|b| - 1]);
      assert a == a[..|a| - 1] + [x] && b == b[..|b| - 1] + [y];
    }
  }

  /** Two accepted bundles with the same signed payload differ in nothing but,
      possibly, the signature bytes. */
  lemma PayloadBindsContent(env: Env, a: Bundle, b: Bundle)
    requires Accepts(env, a) && Accepts(env, b) && a.signedPayload == b.signedPayload
    requires Digests(env) && CollisionFree(env, BundleDocs(a) + BundleDocs(b))
    ensures a == b.(signature := a.signature)
  {
    AcceptedEvents(env, a);
    AcceptedEvents(env, b);
    LastBindsEvents(env, a.events, b.events);
    assert AssertionsDoc(a.assertions) in BundleDocs(a) && AssertionsDoc(b.assertions) in BundleDocs(b);
    AssertionsDocInjective(a.assertions, b.assertions);
    assert a.plan in BundleDocs(a) && b.plan in BundleDocs(b);
    assert a.anchorMetadata in BundleDocs(a) && b.anchorMetadata in BundleDocs(b);
  }
}
