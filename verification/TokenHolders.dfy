/** Who can use a one-time authorization: only the holder of its private token, and the
    holder always - over every execution of the requests in Authorization. */
module TokenHolders {
  import opened Wrappers
  import opened Authorization

  /** op is the read with which caller c began the suspended request p, with the right
      token and before the expiry that the application saw. */
  predicate Began(op: Op, c: nat, p: Pending) {
    && (op.StartVerify? || op.StartConsume?) && op.caller == c
    && op.id == p.loaded.id && op.presentedHash == p.loaded.terms.tokenHash
    && (p.Proving? ==> op.StartVerify? && op.appNow < p.loaded.terms.expiresAt)
    && (p.Consuming? ==> op.StartConsume? && op.appNow < p.loaded.terms.expiresAt)
  }

  lemma StartBegins(s: State, op: Op, c: nat)
    requires Inv(s) && c in Next(s, op).pending && (c !in s.pending || Next(s, op).pending[c] != s.pending[c])
    ensures Began(op, c, Next(s, op).pending[c])
  {
    hide Verifications, Consumptions, EventOk, PendingOk;
    if op.StartVerify? || op.StartConsume? {
      if op.id in s.rows { assert RowOk(s, op.id); }
    }
  }

  lemma {:induction false} EveryRequestBegan(ops: seq<Op>, c: nat)
    requires Execution(ops) && c in After(ops).pending
    ensures exists m :: 0 <= m < |ops| && Began(ops[m], c, After(ops).pending[c])
    decreases |ops|
  {
    hide Inv, Next, Began;
    if ops != [] {
      var front, op := ops[..|ops| - 1], ops[|ops| - 1];
      var s := After(front);
      ReachableInv(front);
      if c in s.pending && Next(s, op).pending[c] == s.pending[c] {
        EveryRequestBegan(front, c);
        var m :| 0 <= m < |front| && Began(front[m], c, s.pending[c]);
        assert ops[m] == front[m];
      } else {
        StartBegins(s, op, c);
        assert ops[|ops| - 1] == op;
      }
    }
  }

  lemma CommitShape(s: State, op: Op, e: Event)
    requires Inv(s) && Next(s, op).log == s.log + [e] && !e.DidIssue?
    ensures e.at == s.now
    ensures e.DidVerify? ==>
              && op.FinishVerify? && op.caller in s.pending && s.pending[op.caller].Proving?
              && var r := s.pending[op.caller].loaded;
              && e.id == r.id && op.documentHash == r.terms.documentHash && op.cardHash == r.terms.cardHash
    ensures e.DidConsume? ==>
              && op.FinishConsume? && op.caller in s.pending && s.pending[op.caller].Consuming?
              && e.id == s.pending[op.caller].loaded.id
  {
    hide Inv;
    assert |Next(s, op).log| == |s.log| + 1 && Next(s, op).log[|s.log|] == e;
  }

  lemma CommittedTerms(s: State, op: Op, e: Event)
    requires Inv(s) && Next(s, op).log == s.log + [e] && !e.DidIssue?
    requires (op.FinishVerify? || op.FinishConsume?) && op.caller in s.pending
    ensures DidIssue(s.pending[op.caller].loaded.id, s.pending[op.caller].loaded.terms) in s.log
  {
    hide Verifications, Consumptions, EventOk;
    var r := s.pending[op.caller].loaded;
    assert PendingOk(s, s.pending[op.caller]) && RowOk(s, r.id);
  }

  /** Over every execution: whenever step n commits a verification or a consumption of an
      authorization, the same caller began the request earlier by presenting the token
      whose hash was issued with it, before its expiry; and a verification showed the
      document and the agent card that were issued. */
  lemma OnlyTheHolderCommits(ops: seq<Op>, n: nat, e: Event)
    requires n < |ops| && Execution(ops[..n + 1]) && After(ops[..n + 1]).log == After(ops[..n]).log + [e]
    ensures e.DidVerify? ==>
              exists m, terms ::
                && 0 <= m < n && DidIssue(e.id, terms) in After(ops[..n]).log
                && ops[m].StartVerify? && ops[m].id == e.id && ops[m].presentedHash == terms.tokenHash
                && ops[m].appNow < terms.expiresAt && e.at < terms.expiresAt
                && ops[n].FinishVerify? && ops[n].caller == ops[m].caller
                && ops[n].documentHash == terms.documentHash && ops[n].cardHash == terms.cardHash
    ensures e.DidConsume? ==>
              exists m, terms ::
                && 0 <= m < n && DidIssue(e.id, terms) in After(ops[..n]).log
                && ops[m].StartConsume? && ops[m].id == e.id && ops[m].presentedHash == terms.tokenHash
                && ops[m].appNow < terms.expiresAt && e.at < terms.expiresAt
                && ops[n].FinishConsume? && ops[n].caller == ops[m].caller
  {
    hide Inv, Next;
    var front, op := ops[..n], ops[n];
    assert ops[..n + 1][..n] == front && ops[..n + 1][n] == op;
    assert Execution(front) && After(ops[..n + 1]) == Next(After(front), op);
    ReachableInv(front);
    if !e.DidIssue? {
      var s := After(front);
      CommitShape(s, op, e);
      var r := s.pending[op.caller].loaded;
      CommittedTerms(s, op, e);
      CommitBeforeExpiry(s, op, e);
      EveryRequestBegan(front, op.caller);
      var m :| 0 <= m < |front| && Began(front[m], op.caller, s.pending[op.caller]);
      assert ops[m] == front[m];
    }
  }

  lemma CommitBeforeExpiry(s: State, op: Op, e: Event)
    requires Inv(s) && Next(s, op).log == s.log + [e] && !e.DidIssue?
    requires (op.FinishVerify? || op.FinishConsume?) && op.caller in s.pending
    ensures s.now < s.pending[op.caller].loaded.terms.expiresAt
  {
    hide Verifications, Consumptions, EventOk;
    var r := s.pending[op.caller].loaded;
    assert PendingOk(s, s.pending[op.caller]) && RowOk(s, r.id);
    assert |Next(s, op).log| == |s.log| + 1;
  }

  /** And always the holder: from any execution after which the authorization stands
      issued, presenting its token and then its document and card before the expiry, by
      either clock, verifies it. */
  lemma HolderCanVerify(
    ops: seq<Op>, id: string, caller: nat, proofHash: string, appNow: int, appLater: int)
    requires Execution(ops) && id in After(ops).rows && After(ops).rows[id].snapshot.status == Issued
    requires caller !in After(ops).pending
    requires appNow < After(ops).rows[id].snapshot.terms.expiresAt
    requires After(ops).now < After(ops).rows[id].snapshot.terms.expiresAt
    ensures var s, terms := After(ops), After(ops).rows[id].snapshot.terms;
            var longer := ops + [StartVerify(caller, id, terms.tokenHash, appNow)]
                          + [FinishVerify(caller, terms.documentHash, terms.cardHash, proofHash, appLater)];
            && Execution(longer) && After(longer).log == s.log + [DidVerify(id, s.now)]
            && After(longer).rows == s.rows[id := Row(Verified, terms.expiresAt, s.rows[id].snapshot.(
                 status := Verified, proofHash := Some(proofHash), verifiedAt := Some(appLater)))]
  {
    hide Inv, Next;
    var s, terms := After(ops), After(ops).rows[id].snapshot.terms;
    ReachableInv(ops);
    var start := StartVerify(caller, id, terms.tokenHash, appNow);
    var finish := FinishVerify(caller, terms.documentHash, terms.cardHash, proofHash, appLater);
    OneMoreStep(ops, start);
    OneMoreStep(ops + [start], finish);
    VerifySteps(s, id, start, finish);
  }

  lemma VerifySteps(s: State, id: string, start: Op, finish: Op)
    requires Inv(s) && id in s.rows && s.rows[id].snapshot.status == Issued
    requires start.StartVerify? && start.id == id && start.presentedHash == s.rows[id].snapshot.terms.tokenHash
    requires start.caller !in s.pending && start.appNow < s.rows[id].snapshot.terms.expiresAt
    requires finish.FinishVerify? && finish.caller == start.caller
    requires finish.documentHash == s.rows[id].snapshot.terms.documentHash
    requires finish.cardHash == s.rows[id].snapshot.terms.cardHash && s.now < s.rows[id].snapshot.terms.expiresAt
    ensures var t := Next(Next(s, start), finish);
            && t.log == s.log + [DidVerify(id, s.now)]
            && t.rows == s.rows[id := Row(Verified, s.rows[id].snapshot.terms.expiresAt, s.rows[id].snapshot.(
                 status := Verified, proofHash := Some(finish.proofHash), verifiedAt := Some(finish.appNow)))]
  {
    hide Verifications, Consumptions, EventOk, PendingOk;
    assert RowOk(s, id);
  }

  /** Likewise a verified authorization can be consumed, once, by its holder. */
  lemma HolderCanConsume(ops: seq<Op>, id: string, caller: nat, appNow: int, appLater: int)
    requires Execution(ops) && id in After(ops).rows && After(ops).rows[id].snapshot.status == Verified
    requires caller !in After(ops).pending
    requires appNow < After(ops).rows[id].snapshot.terms.expiresAt
    requires After(ops).now < After(ops).rows[id].snapshot.terms.expiresAt
    ensures var s, terms := After(ops), After(ops).rows[id].snapshot.terms;
            var longer := ops + [StartConsume(caller, id, terms.tokenHash, appNow)] + [FinishConsume(caller, appLater)];
            && Execution(longer) && After(longer).log == s.log + [DidConsume(id, s.now)]
            && After(longer).rows == s.rows[id := Row(Consumed, terms.expiresAt, s.rows[id].snapshot.(
                 status := Consumed, consumedAt := Some(appLater)))]
  {
    hide Inv, Next;
    var s, terms := After(ops), After(ops).rows[id].snapshot.terms;
    ReachableInv(ops);
    OneMoreStep(ops, StartConsume(caller, id, terms.tokenHash, appNow));
    OneMoreStep(ops + [StartConsume(caller, id, terms.tokenHash, appNow)], FinishConsume(caller, appLater));
    ConsumeSteps(s, id, StartConsume(caller, id, terms.tokenHash, appNow), FinishConsume(caller, appLater));
  }

  lemma ConsumeSteps(s: State, id: string, start: Op, finish: Op)
    requires Inv(s) && id in s.rows && s.rows[id].snapshot.status == Verified
    requires start.StartConsume? && start.id == id && start.presentedHash == s.rows[id].snapshot.terms.tokenHash
    requires start.caller !in s.pending && start.appNow < s.rows[id].snapshot.terms.expiresAt
    requires finish.FinishConsume? && finish.caller == start.caller && s.now < s.rows[id].snapshot.terms.expiresAt
    ensures var t := Next(Next(s, start), finish);
            && t.log == s.log + [DidConsume(id, s.now)]
            && t.rows == s.rows[id := Row(Consumed, s.rows[id].snapshot.terms.expiresAt, s.rows[id].snapshot.(
                 status := Consumed, consumedAt := Some(finish.appNow)))]
  {
    hide Verifications, Consumptions, EventOk, PendingOk;
    assert RowOk(s, id);
  }

  /** A challenge is issued for ten minutes from the application's clock. */
  lemma IssuedForTenMinutes(ops: seq<Op>, id: string, terms: Terms, appNow: int)
    requires Execution(ops) && id !in After(ops).rows
    ensures var longer := ops + [Issue(id, terms, appNow)];
            && Execution(longer)
            && After(longer).rows == After(ops).rows[id :=
                 Row(Issued, appNow + 600_000,
                     Record(id, Issued, terms.(expiresAt := appNow + 600_000), None, None, None))]
            && After(longer).log == After(ops).log + [DidIssue(id, terms.(expiresAt := appNow + 600_000))]
  {
    OneMoreStep(ops, Issue(id, terms, appNow));
  }
}
