/** One-time authorizations in database mode: packages/runtime/src/authorizations.ts over
    the compare-and-swap of packages/runtime/src/persistence.ts. Every request reads its
    record in one statement and writes it in another, so any number of requests may be
    suspended in between. The statements read the database's clock; the application reads
    its own, and nothing is assumed about how far the two are apart. */
module Authorization {
  import opened Wrappers

  datatype Status = Issued | Verified | Consumed | Expired | Revoked

  /** What issuing fixes: nothing later may change it. */
  datatype Terms = Terms(
    scopeHash: string, cardHash: string, documentHash: string, tokenHash: string,
    grant: string, proofUrl: string, expiresAt: int)

  datatype Record = Record(
    id: string, status: Status, terms: Terms, proofHash: Option<string>,
    verifiedAt: Option<int>, consumedAt: Option<int>)

  /** A row of agenttrial_authorizations: two columns beside the stored record. */
  datatype Row = Row(status: Status, expiresAt: int, snapshot: Record)

  /** A request suspended between its read and its write, with the record it read. */
  datatype Pending =
    | Proving(loaded: Record)
    | Consuming(loaded: Record)
    | Expiring(loaded: Record, readAt: int)

  datatype Event =
    | DidIssue(id: string, terms: Terms)
    | DidVerify(id: string, at: int)
    | DidConsume(id: string, at: int)

  /** `now` is the database's clock. `log` records what has committed, and when; it is
      read by the theorems only. */
  datatype State = State(now: int, rows: map<string, Row>, pending: map<nat, Pending>, log: seq<Event>)

  datatype Op =
    | Tick(millis: nat)
    | Issue(id: string, terms: Terms, appNow: int)
    | StartVerify(caller: nat, id: string, presentedHash: string, appNow: int)
    | FinishVerify(caller: nat, documentHash: string, cardHash: string, proofHash: string, appNow: int)
    | StartConsume(caller: nat, id: string, presentedHash: string, appNow: int)
    | FinishConsume(caller: nat, appNow: int)
    | FinishExpire(caller: nat)

  const VALIDITY := 10 * 60 * 1000

  function Init(): State { State(0, map[], map[], []) }

  // ---- The statements ----

  /** UPDATE ... WHERE id = . AND status = expected AND expires_at > now() */
  predicate SwapMatches(rows: map<string, Row>, id: string, expected: Status, now: int) {
    id in rows && rows[id].status == expected && rows[id].expiresAt > now
  }

  function Swapped(rows: map<string, Row>, record: Record): map<string, Row>
    requires record.id in rows
  {
    rows[record.id := Row(record.status, rows[record.id].expiresAt, record)]
  }

  function VerifiedRecord(r: Record, proofHash: string, appNow: int): Record {
    r.(status := Verified, proofHash := Some(proofHash), verifiedAt := Some(appNow))
  }

  function ConsumedRecord(r: Record, appNow: int): Record { r.(status := Consumed, consumedAt := Some(appNow)) }

  /** Reading a record, checking the token, the status and the expiry. */
  function Loaded(s: State, id: string, presentedHash: string, wanted: Status, appNow: int): Option<Pending> {
    if id !in s.rows || s.rows[id].snapshot.terms.tokenHash != presentedHash then None
    else
      var r := s.rows[id].snapshot;
      if r.status != wanted then None
      else if r.terms.expiresAt <= appNow then Some(Expiring(r, appNow))
      else Some(if wanted == Issued then Proving(r) else Consuming(r))
  }

  function Suspend(s: State, caller: nat, p: Option<Pending>): State {
    if p.Some? && caller !in s.pending then s.(pending := s.pending[caller := p.value]) else s
  }

  function Resume(s: State, caller: nat, rows: map<string, Row>, log: seq<Event>): State {
    State(s.now, rows, s.pending - {caller}, log)
  }

  predicate VerifyCommits(s: State, op: Op) {
    && op.FinishVerify? && op.caller in s.pending && s.pending[op.caller].Proving?
    && var r := s.pending[op.caller].loaded;
    && op.documentHash == r.terms.documentHash && op.cardHash == r.terms.cardHash
    && SwapMatches(s.rows, r.id, Issued, s.now)
  }

  predicate ConsumeCommits(s: State, op: Op) {
    && op.FinishConsume? && op.caller in s.pending && s.pending[op.caller].Consuming?
    && SwapMatches(s.rows, s.pending[op.caller].loaded.id, Verified, s.now)
  }

  predicate ExpireCommits(s: State, op: Op) {
    && op.FinishExpire? && op.caller in s.pending && s.pending[op.caller].Expiring?
    && SwapMatches(s.rows, s.pending[op.caller].loaded.id, s.pending[op.caller].loaded.status, s.now)
  }

  function Next(s: State, op: Op): State {
    match op
    case Tick(millis) => s.(now := s.now + millis)
    case Issue(id, terms, appNow) =>
      var t := terms.(expiresAt := appNow + VALIDITY);
      s.(rows := s.rows[id := Row(Issued, t.expiresAt, Record(id, Issued, t, None, None, None))],
         log := s.log + [DidIssue(id, t)])
    case StartVerify(caller, id, presentedHash, appNow) =>
      Suspend(s, caller, Loaded(s, id, presentedHash, Issued, appNow))
    case StartConsume(caller, id, presentedHash, appNow) =>
      Suspend(s, caller, Loaded(s, id, presentedHash, Verified, appNow))
    case FinishVerify(caller, _, _, proofHash, appNow) =>
      if caller !in s.pending || !s.pending[caller].Proving? then s
      else if VerifyCommits(s, op) then
        var r := s.pending[caller].loaded;
        Resume(s, caller, Swapped(s.rows, VerifiedRecord(r, proofHash, appNow)), s.log + [DidVerify(r.id, s.now)])
      else Resume(s, caller, s.rows, s.log)
    case FinishConsume(caller, appNow) =>
      if caller !in s.pending || !s.pending[caller].Consuming? then s
      else if ConsumeCommits(s, op) then
        var r := s.pending[caller].loaded;
        Resume(s, caller, Swapped(s.rows, ConsumedRecord(r, appNow)), s.log + [DidConsume(r.id, s.now)])
      else Resume(s, caller, s.rows, s.log)
    case FinishExpire(caller) =>
      if caller !in s.pending || !s.pending[caller].Expiring? then s
      else
        var r := s.pending[caller].loaded;
        if ExpireCommits(s, op) then Resume(s, caller, Swapped(s.rows, r.(status := Expired)), s.log)
        else Resume(s, caller, s.rows, s.log)
  }

  // ---- The same steps on the mutable table ----

  datatype Outcome = Accepted | Refused | Waiting

  class Database {
    var now: int
    var rows: map<string, Row>
    var pending: map<nat, Pending>
    ghost var log: seq<Event>

    ghost function Contents(): State
      reads this
    {
      State(now, rows, pending, log)
    }

    constructor ()
      ensures Contents() == Init()
    {
      now, rows, pending, log := 0, map[], map[], [];
    }

    method Tick(millis: nat)
      modifies this`now
      ensures Contents() == Next(old(Contents()), Op.Tick(millis))
    {
      now := now + millis;
    }

    method Issue(id: string, terms: Terms, appNow: int)
      modifies this`rows, this`log
      ensures Contents() == Next(old(Contents()), Op.Issue(id, terms, appNow))
    {
      var t := terms.(expiresAt := appNow + VALIDITY);
      var record := Record(id, Issued, t, None, None, None);
      rows := rows[id := Row(record.status, t.expiresAt, record)];
      log := log + [DidIssue(id, t)];
    }

    method Transition(id: string, expected: Status, record: Record) returns (swapped: bool)
      requires id == record.id
      modifies this`rows
      ensures swapped == SwapMatches(old(rows), id, expected, now)
      ensures rows == if swapped then Swapped(old(rows), record) else old(rows)
    {
      if id !in rows || rows[id].status != expected || rows[id].expiresAt <= now { return false; }
      rows := rows[id := Row(record.status, rows[id].expiresAt, record)];
      swapped := true;
    }

    method Start(caller: nat, id: string, presentedHash: string, wanted: Status, appNow: int) returns (outcome: Outcome)
      requires caller !in pending && (wanted == Issued || wanted == Verified)
      modifies this`pending
      ensures Contents() == Next(old(Contents()),
                                 if wanted == Issued then StartVerify(caller, id, presentedHash, appNow)
                                 else StartConsume(caller, id, presentedHash, appNow))
      ensures outcome == Waiting <==> Loaded(old(Contents()), id, presentedHash, wanted, appNow).Some?
      ensures outcome == Waiting <==> id in rows && rows[id].snapshot.terms.tokenHash == presentedHash
                                      && rows[id].snapshot.status == wanted
      ensures outcome != Waiting ==> pending == old(pending)
    {
      if id !in rows { return Refused; }
      var record := rows[id].snapshot;
      if record.terms.tokenHash != presentedHash || record.status != wanted { return Refused; }
      if record.terms.expiresAt <= appNow {
        pending := pending[caller := Expiring(record, appNow)];
      } else if wanted == Issued {
        pending := pending[caller := Proving(record)];
      } else {
        pending := pending[caller := Consuming(record)];
      }
      outcome := Waiting;
    }

    method CompleteVerify(caller: nat, documentHash: string, cardHash: string, proofHash: string, appNow: int)
      returns (outcome: Outcome)
      requires caller in pending && pending[caller].Proving?
      modifies this
      ensures Contents() == Next(old(Contents()), FinishVerify(caller, documentHash, cardHash, proofHash, appNow))
      ensures outcome == Accepted
              <==> VerifyCommits(old(Contents()), FinishVerify(caller, documentHash, cardHash, proofHash, appNow))
    {
      var record := pending[caller].loaded;
      pending := pending - {caller};
      if documentHash != record.terms.documentHash || cardHash != record.terms.cardHash { return Refused; }
      var verified := record.(status := Verified, proofHash := Some(proofHash), verifiedAt := Some(appNow));
      var swapped := Transition(record.id, Issued, verified);
      if !swapped { return Refused; }
      log := log + [DidVerify(record.id, now)];
      outcome := Accepted;
    }

    method CompleteConsume(caller: nat, appNow: int) returns (outcome: Outcome)
      requires caller in pending && pending[caller].Consuming?
      modifies this
      ensures Contents() == Next(old(Contents()), FinishConsume(caller, appNow))
      ensures outcome == Accepted <==> ConsumeCommits(old(Contents()), FinishConsume(caller, appNow))
    {
      var record := pending[caller].loaded;
      pending := pending - {caller};
      var swapped := Transition(record.id, Verified, record.(status := Consumed, consumedAt := Some(appNow)));
      if !swapped { return Refused; }
      log := log + [DidConsume(record.id, now)];
      outcome := Accepted;
    }

    method CompleteExpire(caller: nat)
      requires caller in pending && pending[caller].Expiring?
      modifies this
      ensures Contents() == Next(old(Contents()), FinishExpire(caller))
    {
      var record := pending[caller].loaded;
      pending := pending - {caller};
      var _ := Transition(record.id, record.status, record.(status := Expired));
    }
  }

  // ---- Every interleaving ----

  /** A fresh random identifier for every challenge. */
  predicate Allowed(s: State, op: Op) { op.Issue? ==> op.id !in s.rows }

  /** Any interleaving of allowed steps from the empty database. */
  ghost predicate Execution(ops: seq<Op>)
    decreases |ops|
  {
    ops == [] || (Execution(ops[..|ops| - 1]) && Allowed(After(ops[..|ops| - 1]), ops[|ops| - 1]))
  }

  function After(ops: seq<Op>): State
    decreases |ops|
  {
    if ops == [] then Init() else Next(After(ops[..|ops| - 1]), ops[|ops| - 1])
  }

  function Verifications(log: seq<Event>, id: string): nat {
    if log == [] then 0
    else Verifications(log[..|log| - 1], id)
         + (if log[|log| - 1].DidVerify? && log[|log| - 1].id == id then 1 else 0)
  }

  function Consumptions(log: seq<Event>, id: string): nat {
    if log == [] then 0
    else Consumptions(log[..|log| - 1], id)
         + (if log[|log| - 1].DidConsume? && log[|log| - 1].id == id then 1 else 0)
  }

  ghost predicate RowOk(s: State, id: string)
    requires id in s.rows
  {
    var row := s.rows[id];
    && row.snapshot.id == id && row.status == row.snapshot.status
    && row.expiresAt == row.snapshot.terms.expiresAt
    && row.status != Revoked
    && DidIssue(id, row.snapshot.terms) in s.log
    && (row.status == Issued ==> Verifications(s.log, id) == 0)
    && (row.status == Verified || row.status == Consumed ==> Verifications(s.log, id) == 1)
    && Verifications(s.log, id) <= 1
    && Consumptions(s.log, id) == (if row.status == Consumed then 1 else 0)
  }

  /** A suspended request holds the current record as long as the status it will
      compare against is still the current status: status alone detects every change. */
  ghost predicate PendingOk(s: State, p: Pending) {
    var r := p.loaded;
    && r.id in s.rows
    && r.terms == s.rows[r.id].snapshot.terms
    && (s.rows[r.id].status == r.status ==> s.rows[r.id].snapshot == r)
    && (p.Proving? ==> r.status == Issued)
    && (p.Consuming? ==> r.status == Verified)
    && r.status in {Issued, Verified}
    && (p.Expiring? ==> r.terms.expiresAt <= p.readAt)
    && (s.rows[r.id].status == Issued ==> r.status == Issued)
  }

  /** Every committed event concerns a known authorization, a verification happened
      before expiry, and a consumption before expiry and after a verification. */
  ghost predicate EventOk(s: State, i: nat)
    requires i < |s.log|
  {
    match s.log[i]
    case DidIssue(id, terms) => id in s.rows && s.rows[id].snapshot.terms == terms
    case DidVerify(id, at) => id in s.rows && at < s.rows[id].expiresAt && at <= s.now
    case DidConsume(id, at) =>
      && id in s.rows && at < s.rows[id].expiresAt && at <= s.now
      && exists j :: 0 <= j < i && s.log[j].DidVerify? && s.log[j].id == id && s.log[j].at <= at
  }

  ghost predicate Inv(s: State) {
    && (forall id :: id in s.rows ==> RowOk(s, id))
    && (forall c :: c in s.pending ==> PendingOk(s, s.pending[c]))
    && (forall i :: 0 <= i < |s.log| ==> EventOk(s, i))
    && (forall id :: id !in s.rows ==> Verifications(s.log, id) == 0 && Consumptions(s.log, id) == 0)
  }

  lemma {:induction false} VerificationInLog(log: seq<Event>, id: string) returns (j: nat)
    requires Verifications(log, id) > 0
    ensures j < |log| && log[j].DidVerify? && log[j].id == id
  {
    var last := |log| - 1;
    if log[last].DidVerify? && log[last].id == id { return last; }
    j := VerificationInLog(log[..last], id);
  }

  /** Appending an event to the log changes the counts of its own authorization only. */
  lemma CountsAfter(log: seq<Event>, e: Event, id: string)
    ensures Verifications(log + [e], id) == Verifications(log, id) + (if e.DidVerify? && e.id == id then 1 else 0)
    ensures Consumptions(log + [e], id) == Consumptions(log, id) + (if e.DidConsume? && e.id == id then 1 else 0)
  {
    assert (log + [e])[..|log + [e]| - 1] == log;
  }

  /** The log grew by e, about authorization `id`; everything else is framed. */
  lemma LogGrows(s: State, s': State, e: Event, id: string)
    requires Inv(s) && s'.log == s.log + [e] && s'.now == s.now && e.id == id
    requires forall k :: k in s.rows ==> k in s'.rows && s'.rows[k].expiresAt == s.rows[k].expiresAt
                                         && s'.rows[k].snapshot.terms == s.rows[k].snapshot.terms
    requires forall k :: k in s'.rows && k != id ==> k in s.rows && s'.rows[k] == s.rows[k]
    requires id in s'.rows
    ensures forall k :: k in s'.rows && k != id ==> RowOk(s', k)
    ensures forall i :: 0 <= i < |s.log| ==> EventOk(s', i)
    ensures forall k :: k !in s'.rows ==> Verifications(s'.log, k) == 0 && Consumptions(s'.log, k) == 0
  {
    hide Verifications, Consumptions;
    forall k | k in s'.rows && k != id ensures RowOk(s', k) {
      assert RowOk(s, k);
      CountsAfter(s.log, e, k);
    }
    forall i | 0 <= i < |s.log| ensures EventOk(s', i) {
      assert EventOk(s, i);
      assert s'.log[i] == s.log[i];
      if s.log[i].DidConsume? {
        var j :| 0 <= j < i && s.log[j].DidVerify? && s.log[j].id == s.log[i].id && s.log[j].at <= s.log[i].at;
        assert s'.log[j] == s.log[j];
      }
    }
    forall k | k !in s'.rows ensures Verifications(s'.log, k) == 0 && Consumptions(s'.log, k) == 0 {
      CountsAfter(s.log, e, k);
    }
  }

  /** A committed swap moves one row forward from the record its request read. */
  lemma SwapKeepsInv(s: State, s': State, caller: nat, next: Record, e: Event)
    requires Inv(s) && caller in s.pending
    requires var r := s.pending[caller].loaded;
             && next.id == r.id && next.terms == r.terms
             && SwapMatches(s.rows, r.id, r.status, s.now)
             && s' == Resume(s, caller, Swapped(s.rows, next), s.log + [e])
             && ((r.status == Issued && next.status == Verified && e == DidVerify(r.id, s.now))
                 || (r.status == Verified && next.status == Consumed && e == DidConsume(r.id, s.now)))
    ensures Inv(s')
  {
    hide Verifications, Consumptions, EventOk, RowOk, PendingOk;
    var r := s.pending[caller].loaded;
    CurrentRecord(s, caller);
    LogGrows(s, s', e, r.id);
    SwappedRowOk(s, s', r, next, e);
    NewEventOk(s, s', e);
    SwapKeepsPending(s, s', r, next);
    forall k | k in s'.rows ensures RowOk(s', k) {}
    forall i | 0 <= i < |s'.log| ensures EventOk(s', i) {}
  }

  lemma CurrentRecord(s: State, caller: nat)
    requires Inv(s) && caller in s.pending
    requires var r := s.pending[caller].loaded; SwapMatches(s.rows, r.id, r.status, s.now)
    ensures var r := s.pending[caller].loaded;
            && s.rows[r.id].snapshot == r && r.status in {Issued, Verified} && r.terms.expiresAt > s.now
            && (r.status == Verified ==> Verifications(s.log, r.id) > 0)
  {
    hide Verifications, Consumptions, EventOk;
    var r := s.pending[caller].loaded;
    assert PendingOk(s, s.pending[caller]) && RowOk(s, r.id);
  }

  lemma SwappedRowOk(s: State, s': State, r: Record, next: Record, e: Event)
    requires r.id in s.rows && RowOk(s, r.id) && s.rows[r.id].snapshot == r
    requires next.id == r.id && next.terms == r.terms && s'.rows == Swapped(s.rows, next) && s'.log == s.log + [e]
    requires (r.status == Issued && next.status == Verified && e == DidVerify(r.id, s.now))
             || (r.status == Verified && next.status == Consumed && e == DidConsume(r.id, s.now))
    ensures RowOk(s', r.id)
  {
    hide Verifications, Consumptions;
    CountsAfter(s.log, e, r.id);
    assert DidIssue(r.id, r.terms) in s'.log;
  }

  /** The expiry write moves the row to its end and commits no event. */
  lemma ExpireKeepsInv(s: State, op: Op)
    requires Inv(s) && ExpireCommits(s, op)
    ensures Inv(Next(s, op))
  {
    hide Verifications, Consumptions, EventOk, RowOk, PendingOk;
    var s' := Next(s, op);
    var r := s.pending[op.caller].loaded;
    CurrentRecord(s, op.caller);
    SwapKeepsPending(s, s', r, r.(status := Expired));
    forall k | k in s'.rows ensures RowOk(s', k) {
      if k == r.id { ExpiredRowOk(s, s', r); } else { SameRowOk(s, s', k); }
    }
    forall i | 0 <= i < |s'.log| ensures EventOk(s', i) { SameEventOk(s, s', i); }
  }

  lemma ExpiredRowOk(s: State, s': State, r: Record)
    requires r.id in s.rows && RowOk(s, r.id) && s.rows[r.id].snapshot == r && r.status in {Issued, Verified}
    requires s'.rows == Swapped(s.rows, r.(status := Expired)) && s'.log == s.log
    ensures RowOk(s', r.id)
  {
    hide Verifications, Consumptions;
  }

  lemma SameRowOk(s: State, s': State, k: string)
    requires k in s.rows && RowOk(s, k) && k in s'.rows && s'.rows[k] == s.rows[k] && s'.log == s.log
    ensures RowOk(s', k)
  {
    hide Verifications, Consumptions;
  }

  lemma SameEventOk(s: State, s': State, i: nat)
    requires i < |s.log| && EventOk(s, i) && s'.log == s.log && s'.now == s.now
    requires forall k :: k in s.rows ==> k in s'.rows && s'.rows[k].expiresAt == s.rows[k].expiresAt
                                         && s'.rows[k].snapshot.terms == s.rows[k].snapshot.terms
    ensures EventOk(s', i)
  {}

  lemma NewEventOk(s: State, s': State, e: Event)
    requires Inv(s) && s'.log == s.log + [e] && s'.now == s.now && s'.rows.Keys == s.rows.Keys
    requires (e.DidVerify? || (e.DidConsume? && Verifications(s.log, e.id) > 0)) && e.at == s.now
    requires e.id in s'.rows && e.at < s'.rows[e.id].expiresAt
    ensures EventOk(s', |s.log|)
  {
    hide Consumptions, RowOk, PendingOk;
    if e.DidConsume? {
      var j := VerificationInLog(s.log, e.id);
      assert EventOk(s, j);
      assert s'.log[j] == s.log[j];
    }
  }

  lemma SwapKeepsPending(s: State, s': State, r: Record, next: Record)
    requires forall c :: c in s.pending ==> PendingOk(s, s.pending[c])
    requires r.id in s.rows && s.rows[r.id].status == r.status && s.rows[r.id].snapshot == r
    requires next.id == r.id && next.terms == r.terms && s'.rows == Swapped(s.rows, next) && s'.now == s.now
    requires (r.status == Issued && next.status == Verified) || (r.status == Verified && next.status == Consumed)
             || (r.status in {Issued, Verified} && next.status == Expired)
    requires forall c :: c in s'.pending ==> c in s.pending && s'.pending[c] == s.pending[c]
    ensures forall c :: c in s'.pending ==> PendingOk(s', s'.pending[c])
  {
    forall c | c in s'.pending ensures PendingOk(s', s'.pending[c]) {
      assert PendingOk(s, s.pending[c]);
    }
  }

  lemma IssueKeepsInv(s: State, op: Op)
    requires Inv(s) && op.Issue? && Allowed(s, op)
    ensures Inv(Next(s, op))
  {
    hide Verifications, Consumptions, RowOk, PendingOk, EventOk;
    var s' := Next(s, op);
    var e := s'.log[|s.log|];
    LogGrows(s, s', e, op.id);
    IssuedRowOk(s, s', e);
    assert EventOk(s', |s.log|) by { IssueEventOk(s', |s.log|); }
    forall k | k in s'.rows ensures RowOk(s', k) {}
    forall c | c in s'.pending ensures PendingOk(s', s'.pending[c]) { OtherPendingOk(s, s', s.pending[c], op.id); }
  }

  lemma IssuedRowOk(s: State, s': State, e: Event)
    requires e.DidIssue? && Verifications(s.log, e.id) == 0 && Consumptions(s.log, e.id) == 0 && s'.log == s.log + [e]
    requires s'.rows == s.rows[e.id := Row(Issued, e.terms.expiresAt, Record(e.id, Issued, e.terms, None, None, None))]
    ensures RowOk(s', e.id)
  {
    hide Verifications, Consumptions;
    CountsAfter(s.log, e, e.id);
    assert e in s'.log;
  }

  lemma IssueEventOk(s: State, i: nat)
    requires i < |s.log| && s.log[i].DidIssue? && s.log[i].id in s.rows
    requires s.rows[s.log[i].id].snapshot.terms == s.log[i].terms
    ensures EventOk(s, i)
  {}

  lemma OtherPendingOk(s: State, s': State, p: Pending, id: string)
    requires PendingOk(s, p) && id !in s.rows
    requires forall k :: k in s.rows ==> k in s'.rows && s'.rows[k] == s.rows[k]
    ensures PendingOk(s', p)
  {}

  lemma FrameKeepsInv(s: State, s': State)
    requires Inv(s) && s'.rows == s.rows && s'.log == s.log && s'.now >= s.now
    requires forall c :: c in s'.pending ==> PendingOk(s, s'.pending[c])
    ensures Inv(s')
  {
    hide Verifications, Consumptions;
    forall c | c in s'.pending ensures PendingOk(s', s'.pending[c]) { assert PendingOk(s, s'.pending[c]); }
    forall i | 0 <= i < |s'.log| ensures EventOk(s', i) { assert EventOk(s, i); }
    forall id | id in s'.rows ensures RowOk(s', id) { assert RowOk(s, id); }
  }

  lemma LoadedIsOk(s: State, id: string, presentedHash: string, wanted: Status, appNow: int)
    requires Inv(s) && (wanted == Issued || wanted == Verified)
    ensures var p := Loaded(s, id, presentedHash, wanted, appNow); p.Some? ==> PendingOk(s, p.value)
  {
    if id in s.rows { assert RowOk(s, id); }
  }

  /** A read, a clock tick or a write that matches no row leaves the table alone. */
  lemma QuietStepKeepsInv(s: State, op: Op)
    requires Inv(s) && !op.Issue? && !VerifyCommits(s, op) && !ConsumeCommits(s, op) && !ExpireCommits(s, op)
    ensures Inv(Next(s, op)) && Next(s, op).rows == s.rows && Next(s, op).log == s.log
  {
    hide RowOk, EventOk, Verifications, Consumptions, Loaded, PendingOk;
    var s' := Next(s, op);
    match op {
      case StartVerify(_, id, h, appNow) => LoadedIsOk(s, id, h, Issued, appNow);
      case StartConsume(_, id, h, appNow) => LoadedIsOk(s, id, h, Verified, appNow);
      case _ =>
    }
    assert s'.rows == s.rows && s'.log == s.log;
    FrameKeepsInv(s, s');
  }

  lemma StepKeepsInv(s: State, op: Op)
    requires Inv(s) && Allowed(s, op)
    ensures Inv(Next(s, op))
  {
    hide Inv;
    if op.Issue? {
      IssueKeepsInv(s, op);
    } else if VerifyCommits(s, op) {
      var r := s.pending[op.caller].loaded;
      PendingStatus(s, op.caller);
      SwapKeepsInv(s, Next(s, op), op.caller, VerifiedRecord(r, op.proofHash, op.appNow), DidVerify(r.id, s.now));
    } else if ConsumeCommits(s, op) {
      var r := s.pending[op.caller].loaded;
      PendingStatus(s, op.caller);
      SwapKeepsInv(s, Next(s, op), op.caller, ConsumedRecord(r, op.appNow), DidConsume(r.id, s.now));
    } else if ExpireCommits(s, op) {
      ExpireKeepsInv(s, op);
    } else {
      QuietStepKeepsInv(s, op);
    }
  }

  lemma PendingStatus(s: State, caller: nat)
    requires Inv(s) && caller in s.pending
    ensures s.pending[caller].Proving? ==> s.pending[caller].loaded.status == Issued
    ensures s.pending[caller].Consuming? ==> s.pending[caller].loaded.status == Verified
  {
    assert PendingOk(s, s.pending[caller]);
  }

  lemma {:induction false} ReachableInv(ops: seq<Op>)
    requires Execution(ops)
    ensures Inv(After(ops))
    decreases |ops|
  {
    hide Inv;
    if ops == [] {
      InitInv();
    } else {
      ReachableInv(ops[..|ops| - 1]);
      StepKeepsInv(After(ops[..|ops| - 1]), ops[|ops| - 1]);
    }
  }

  lemma InitInv()
    ensures Inv(Init())
  {}

  /** Under every interleaving, an authorization is verified at most once and consumed
      at most once, a consumption follows a verification, and both come before expiry. */
  lemma SingleUse(ops: seq<Op>, s: State, id: string)
    requires Execution(ops) && s == After(ops)
    ensures Consumptions(s.log, id) <= Verifications(s.log, id) <= 1
    ensures forall i :: 0 <= i < |s.log| && s.log[i].DidConsume? ==>
              && s.log[i].id in s.rows && s.log[i].at < s.rows[s.log[i].id].expiresAt
              && exists j :: 0 <= j < i && s.log[j].DidVerify? && s.log[j].id == s.log[i].id
                  && s.log[j].at <= s.log[i].at
  {
    ReachableInv(ops);
    if id in s.rows { assert RowOk(s, id); }
    forall i | 0 <= i < |s.log| && s.log[i].DidConsume?
      ensures && s.log[i].id in s.rows && s.log[i].at < s.rows[s.log[i].id].expiresAt
              && exists j :: 0 <= j < i && s.log[j].DidVerify? && s.log[j].id == s.log[i].id
                  && s.log[j].at <= s.log[i].at
    {
      assert EventOk(s, i);
    }
  }

  /** A swap that compares only the status overwrites exactly the record its request
      read, so no update is lost and the issued terms survive every interleaving. */
  lemma NoLostUpdate(ops: seq<Op>, s: State, op: Op)
    requires Execution(ops) && s == After(ops)
    ensures VerifyCommits(s, op) || ConsumeCommits(s, op) || ExpireCommits(s, op) ==>
              var r := s.pending[op.caller].loaded;
              && r.id in s.rows && s.rows[r.id].snapshot == r
              && r.id in Next(s, op).rows && Next(s, op).rows[r.id].snapshot.terms == r.terms
    ensures forall id :: id in s.rows ==> DidIssue(id, s.rows[id].snapshot.terms) in s.log
    ensures forall id, t1, t2 :: DidIssue(id, t1) in s.log && DidIssue(id, t2) in s.log ==> t1 == t2
  {
    hide Inv, Execution, After;
    ReachableInv(ops);
    if VerifyCommits(s, op) || ConsumeCommits(s, op) || ExpireCommits(s, op) { CommitIsCurrent(s, op); }
    forall id | id in s.rows ensures DidIssue(id, s.rows[id].snapshot.terms) in s.log { RowWasIssued(s, id); }
    forall id, t1, t2 | DidIssue(id, t1) in s.log && DidIssue(id, t2) in s.log ensures t1 == t2 {
      IssuedOnce(s, id, t1);
      IssuedOnce(s, id, t2);
    }
  }

  lemma CommitIsCurrent(s: State, op: Op)
    requires Inv(s) && (VerifyCommits(s, op) || ConsumeCommits(s, op) || ExpireCommits(s, op))
    ensures var r := s.pending[op.caller].loaded;
            && r.id in s.rows && s.rows[r.id].snapshot == r
            && r.id in Next(s, op).rows && Next(s, op).rows[r.id].snapshot.terms == r.terms
  {
    hide Inv;
    PendingStatus(s, op.caller);
    CurrentRecord(s, op.caller);
  }

  lemma RowWasIssued(s: State, id: string)
    requires Inv(s) && id in s.rows
    ensures DidIssue(id, s.rows[id].snapshot.terms) in s.log
  {
    hide Verifications, Consumptions;
    assert RowOk(s, id);
  }

  lemma IssuedOnce(s: State, id: string, terms: Terms)
    requires Inv(s) && DidIssue(id, terms) in s.log
    ensures id in s.rows && s.rows[id].snapshot.terms == terms
  {
    hide RowOk, PendingOk;
    var i :| 0 <= i < |s.log| && s.log[i] == DidIssue(id, terms);
    assert EventOk(s, i);
  }

  // ---- The status `expired` ----

  /** The application's clock is ahead of the database's when a request reads its record. */
  predicate Ahead(s: State, op: Op) { (op.StartVerify? || op.StartConsume?) && op.appNow > s.now }

  ghost predicate NeverAhead(ops: seq<Op>)
    decreases |ops|
  {
    ops == [] || (NeverAhead(ops[..|ops| - 1]) && !Ahead(After(ops[..|ops| - 1]), ops[|ops| - 1]))
  }

  ghost predicate NothingExpires(s: State) {
    && (forall id :: id in s.rows ==> s.rows[id].status != Expired)
    && (forall c :: c in s.pending && s.pending[c].Expiring? ==> s.pending[c].readAt <= s.now)
  }

  /** The write that would mark a record expired commits exactly while the record is
      still as it was read and the database's clock is before its expiry - which the
      application's clock had reached when it read the record, so it was ahead. */
  lemma ExpiryNeedsAheadClock(s: State, op: Op)
    requires Inv(s) && op.FinishExpire? && op.caller in s.pending && s.pending[op.caller].Expiring?
    ensures var p := s.pending[op.caller];
            && p.loaded.id in s.rows && p.loaded.terms.expiresAt <= p.readAt
            && (ExpireCommits(s, op) <==> s.rows[p.loaded.id].snapshot == p.loaded && s.now < p.loaded.terms.expiresAt)
            && (ExpireCommits(s, op) ==> s.now < p.readAt)
  {
    hide Verifications, Consumptions, EventOk;
    var p := s.pending[op.caller];
    assert PendingOk(s, p) && RowOk(s, p.loaded.id);
  }

  lemma StepKeepsUnexpired(s: State, op: Op)
    requires Inv(s) && NothingExpires(s) && !Ahead(s, op)
    ensures NothingExpires(Next(s, op))
  {
    hide Inv;
    if ExpireCommits(s, op) {
      ExpiryNeedsAheadClock(s, op);
      assert false;
    }
  }

  /** Unless some request's clock is ahead, no execution ever stores the status expired:
      the write runs only after the expiry that its own guard wants to lie ahead. */
  lemma {:induction false} ExpiredIsNeverStored(ops: seq<Op>)
    requires Execution(ops) && NeverAhead(ops)
    ensures NothingExpires(After(ops))
    decreases |ops|
  {
    hide Inv, Next, Ahead;
    if ops == [] {
      NothingExpiresAtFirst();
    } else {
      var front := ops[..|ops| - 1];
      ExpiredIsNeverStored(front);
      ReachableInv(front);
      StepKeepsUnexpired(After(front), ops[|ops| - 1]);
    }
  }

  lemma NothingExpiresAtFirst()
    ensures NothingExpires(Init())
  {}

  /** With a clock one millisecond ahead it can be stored, while the database still holds
      the authorization valid. */
  lemma AheadClockStoresExpired(id: string, terms: Terms)
    ensures var ops := [Issue(id, terms, 0), Tick(VALIDITY - 1), StartVerify(0, id, terms.tokenHash, VALIDITY),
                        FinishExpire(0)];
            var s := After(ops);
            Execution(ops) && id in s.rows && s.rows[id].status == Expired && s.rows[id].expiresAt > s.now
  {
    hide After, Execution;
    var one := [Issue(id, terms, 0)];
    var two := one + [Tick(VALIDITY - 1)];
    var three := two + [StartVerify(0, id, terms.tokenHash, VALIDITY)];
    var four := three + [FinishExpire(0)];
    NoSteps();
    assert [] + one == one;
    OneMoreStep([], one[0]);
    OneMoreStep(one, two[1]);
    OneMoreStep(two, three[2]);
    OneMoreStep(three, four[3]);
    assert four == [Issue(id, terms, 0), Tick(VALIDITY - 1), StartVerify(0, id, terms.tokenHash, VALIDITY),
                    FinishExpire(0)];
  }

  lemma NoSteps()
    ensures Execution([]) && After([]) == Init()
  {}

  lemma OneMoreStep(ops: seq<Op>, op: Op)
    requires Execution(ops) && Allowed(After(ops), op)
    ensures Execution(ops + [op]) && After(ops + [op]) == Next(After(ops), op)
  {
    assert (ops + [op])[..|ops|] == ops;
  }
}
