/** The two idempotency stores: the in-process Map of packages/runtime/src/index.ts,
    keyed by one concatenated string and purged eagerly, and the SQL table of
    packages/runtime/src/persistence.ts, keyed by a pair and cleared lazily. */
module Idempotency {
  import opened Wrappers

  /** runId is absent until the record is finalized. */
  datatype Entry = Entry(requestHash: string, runId: Option<string>, expiresAt: int)

  datatype Reservation = Reserved | Replay(runId: string) | Pending | Conflict

  type Table<K> = map<K, Entry>
  type PairKey = (string, string)

  const TTL := 24 * 60 * 60 * 1000

  function StringKey(scope: string, hash: string): string { scope + ":" + hash }

  predicate Live<K(==)>(t: Table<K>, k: K, now: int) { k in t && t[k].expiresAt > now }

  function Answer(e: Entry, requestHash: string): Reservation {
    if e.requestHash != requestHash then Conflict
    else if e.runId.Some? then Replay(e.runId.value)
    else Pending
  }

  function Fresh(requestHash: string, now: int): Entry { Entry(requestHash, None, now + TTL) }

  // ---- What a call does to a table ----

  function Purge(t: Table<string>, now: int): Table<string> {
    map k | k in t && t[k].expiresAt > now :: t[k]
  }

  function MemoryReserve(t: Table<string>, scope: string, hash: string, request: string, now: int)
    : (Table<string>, Reservation)
  {
    var k, kept := StringKey(scope, hash), Purge(t, now);
    if k in kept then (kept, Answer(kept[k], request)) else (kept[k := Fresh(request, now)], Reserved)
  }

  function SqlReserve(t: Table<PairKey>, scope: string, hash: string, request: string, now: int)
    : (Table<PairKey>, Reservation)
  {
    var k := (scope, hash);
    if Live(t, k, now) then (t, Answer(t[k], request)) else (t[k := Fresh(request, now)], Reserved)
  }

  predicate MemoryFinalizes(t: Table<string>, k: string, request: string) {
    k in t && t[k].requestHash == request && t[k].runId.None?
  }

  predicate SqlFinalizes(t: Table<PairKey>, k: PairKey, request: string, now: int) {
    k in t && t[k].requestHash == request && t[k].runId.None? && t[k].expiresAt > now
  }

  function Filled<K(==)>(t: Table<K>, k: K, runId: string): Table<K>
    requires k in t
  {
    t[k := t[k].(runId := Some(runId))]
  }

  function Abandoned<K(==)>(t: Table<K>, k: K, request: string): Table<K> {
    if k in t && t[k].requestHash == request && t[k].runId.None? then t - {k} else t
  }

  // ---- The stores ----

  class MemoryStore {
    var records: Table<string>

    constructor ()
      ensures records == map[]
    {
      records := map[];
    }

    method Reserve(scope: string, hash: string, request: string, now: int) returns (answer: Reservation)
      modifies this
      ensures (records, answer) == MemoryReserve(old(records), scope, hash, request, now)
    {
      var unseen := records.Keys;
      while unseen != {}
        invariant unseen <= old(records).Keys
        invariant records == map k | k in old(records) && (k in unseen || old(records)[k].expiresAt > now)
                               :: old(records)[k]
        decreases |unseen|
      {
        var key :| key in unseen;
        unseen := unseen - {key};
        if records[key].expiresAt <= now { records := records - {key}; }
      }
      assert records == Purge(old(records), now);
      var key := StringKey(scope, hash);
      if key in records {
        var existing := records[key];
        if existing.requestHash != request { return Conflict; }
        return if existing.runId.Some? then Replay(existing.runId.value) else Pending;
      }
      records := records[key := Entry(request, None, now + TTL)];
      answer := Reserved;
    }

    /** Does not look at the expiry. */
    method Finalize(scope: string, hash: string, request: string, runId: string) returns (done: bool)
      modifies this
      ensures done == MemoryFinalizes(old(records), StringKey(scope, hash), request)
      ensures records == if done then Filled(old(records), StringKey(scope, hash), runId) else old(records)
    {
      var key := StringKey(scope, hash);
      if key !in records || records[key].requestHash != request || records[key].runId.Some? { return false; }
      records := records[key := records[key].(runId := Some(runId))];
      done := true;
    }

    method Abandon(scope: string, hash: string, request: string)
      modifies this
      ensures records == Abandoned(old(records), StringKey(scope, hash), request)
    {
      var key := StringKey(scope, hash);
      if key in records && records[key].requestHash == request && records[key].runId.None? {
        records := records - {key};
      }
    }
  }

  class SqlStore {
    var rows: Table<PairKey>

    constructor ()
      ensures rows == map[]
    {
      rows := map[];
    }

    /** Insert, or read the unexpired row, or delete the expired one and start over. */
    method Reserve(scope: string, hash: string, request: string, now: int) returns (answer: Reservation)
      modifies this
      ensures (rows, answer) == SqlReserve(old(rows), scope, hash, request, now)
      decreases if (scope, hash) in rows then 1 else 0
    {
      var key := (scope, hash);
      if key !in rows {
        rows := rows[key := Entry(request, None, now + TTL)];
        return Reserved;
      }
      if rows[key].expiresAt <= now {
        rows := rows - {key};
        answer := Reserve(scope, hash, request, now);
        assert rows == old(rows)[key := Fresh(request, now)];
        return;
      }
      if rows[key].requestHash != request { return Conflict; }
      answer := if rows[key].runId.Some? then Replay(rows[key].runId.value) else Pending;
    }

    method Finalize(scope: string, hash: string, request: string, runId: string, now: int) returns (done: bool)
      modifies this
      ensures done == SqlFinalizes(old(rows), (scope, hash), request, now)
      ensures rows == if done then Filled(old(rows), (scope, hash), runId) else old(rows)
    {
      var key := (scope, hash);
      done := key in rows && rows[key].requestHash == request && rows[key].runId.None? && rows[key].expiresAt > now;
      if done { rows := rows[key := rows[key].(runId := Some(runId))]; }
    }

    method Abandon(scope: string, hash: string, request: string)
      modifies this
      ensures rows == Abandoned(old(rows), (scope, hash), request)
    {
      var key := (scope, hash);
      if key in rows && rows[key].requestHash == request && rows[key].runId.None? { rows := rows - {key}; }
    }
  }

  // ---- Call sequences ----

  datatype Call =
    | Reserve(scope: string, hash: string, request: string, now: int)
    | Finalize(scope: string, hash: string, request: string, runId: string, now: int)
    | Abandon(scope: string, hash: string, request: string, now: int)

  datatype Reply = Reserving(answer: Reservation) | Finalizing(done: bool) | Abandoning

  function MemoryStep(t: Table<string>, c: Call): (Table<string>, Reply) {
    match c
    case Reserve(scope, hash, request, now) =>
      var (t', a) := MemoryReserve(t, scope, hash, request, now);
      (t', Reserving(a))
    case Finalize(scope, hash, request, runId, now) =>
      var k := StringKey(scope, hash);
      if MemoryFinalizes(t, k, request) then (Filled(t, k, runId), Finalizing(true)) else (t, Finalizing(false))
    case Abandon(scope, hash, request, now) => (Abandoned(t, StringKey(scope, hash), request), Abandoning)
  }

  function SqlStep(t: Table<PairKey>, c: Call): (Table<PairKey>, Reply) {
    match c
    case Reserve(scope, hash, request, now) =>
      var (t', a) := SqlReserve(t, scope, hash, request, now);
      (t', Reserving(a))
    case Finalize(scope, hash, request, runId, now) =>
      var k := (scope, hash);
      if SqlFinalizes(t, k, request, now) then (Filled(t, k, runId), Finalizing(true)) else (t, Finalizing(false))
    case Abandon(scope, hash, request, now) => (Abandoned(t, (scope, hash), request), Abandoning)
  }

  function MemoryAfter(t: Table<string>, calls: seq<Call>): Table<string>
    decreases |calls|
  {
    if calls == [] then t else MemoryAfter(MemoryStep(t, calls[0]).0, calls[1..])
  }

  function SqlAfter(t: Table<PairKey>, calls: seq<Call>): Table<PairKey>
    decreases |calls|
  {
    if calls == [] then t else SqlAfter(SqlStep(t, calls[0]).0, calls[1..])
  }

  predicate Ordered(calls: seq<Call>, from: int) {
    && (forall i :: 0 <= i < |calls| ==> from <= calls[i].now)
    && (forall i, j :: 0 <= i < j < |calls| ==> calls[i].now <= calls[j].now)
  }

  /** Idempotency hashes are hexadecimal digests: no colon in them. */
  predicate PlainHashes(calls: seq<Call>) { forall i :: 0 <= i < |calls| ==> ':' !in calls[i].hash }

  // ---- The concatenated key ----

  /** Two pairs share a concatenated key exactly when they are the same pair, as long
      as the hashes contain no colon. */
  lemma StringKeyInjective(scope: string, hash: string, scope': string, hash': string)
    requires ':' !in hash && ':' !in hash'
    ensures StringKey(scope, hash) == StringKey(scope', hash') ==> scope == scope' && hash == hash'
  {
    var k, k' := StringKey(scope, hash), StringKey(scope', hash');
    if k == k' {
      assert k[|scope|] == ':' && k'[|scope'|] == ':';
      assert |scope| == |scope'|;
      assert scope == k[..|scope|] == scope';
      assert hash == k[|scope| + 1..] == hash';
    }
  }

  /** With a colon in a hash, the in-process store confuses two callers that the SQL
      table keeps apart. */
  lemma ColonInHashSeparatesTheStores()
    ensures var first, second := Reserve("a", "b:c", "r", 0), Reserve("a:b", "c", "q", 0);
            && MemoryStep(MemoryStep(map[], first).0, second).1 == Reserving(Conflict)
            && SqlStep(SqlStep(map[], first).0, second).1 == Reserving(Reserved)
  {
    assert StringKey("a", "b:c") == "a:b:c" == StringKey("a:b", "c");
  }

  // ---- Agreement ----

  /** Both stores hold the same unexpired records; what has expired may differ. */
  ghost predicate Related(mem: Table<string>, db: Table<PairKey>, now: int) {
    forall scope, hash :: ':' !in hash ==>
      var k, k' := StringKey(scope, hash), (scope, hash);
      && (Live(mem, k, now) <==> Live(db, k', now))
      && (Live(mem, k, now) ==> mem[k] == db[k'])
  }

  lemma RelatedLater(mem: Table<string>, db: Table<PairKey>, now: int, later: int)
    requires Related(mem, db, now) && now <= later
    ensures Related(mem, db, later)
  {
    forall scope: string, hash: string | ':' !in hash
      ensures var k, k' := StringKey(scope, hash), (scope, hash);
              && (Live(mem, k, later) <==> Live(db, k', later))
              && (Live(mem, k, later) ==> mem[k] == db[k'])
    {
      assert Live(mem, StringKey(scope, hash), now) <==> Live(db, (scope, hash), now);
    }
  }

  lemma StepKeepsRelated(mem: Table<string>, db: Table<PairKey>, c: Call)
    requires Related(mem, db, c.now) && ':' !in c.hash
    ensures Related(MemoryStep(mem, c).0, SqlStep(db, c).0, c.now)
  {
    var mem', db' := MemoryStep(mem, c).0, SqlStep(db, c).0;
    var key, key' := StringKey(c.scope, c.hash), (c.scope, c.hash);
    assert Live(mem, key, c.now) <==> Live(db, key', c.now);
    forall scope: string, hash: string | ':' !in hash
      ensures var k, k' := StringKey(scope, hash), (scope, hash);
              && (Live(mem', k, c.now) <==> Live(db', k', c.now))
              && (Live(mem', k, c.now) ==> mem'[k] == db'[k'])
    {
      var k, k' := StringKey(scope, hash), (scope, hash);
      assert Live(mem, k, c.now) <==> Live(db, k', c.now);
      StringKeyInjective(scope, hash, c.scope, c.hash);
      assert k == key <==> k' == key';
    }
  }

  /** Reserve answers are the same in related stores. Finalize answers differ exactly
      when the in-process store still holds an expired record for the key that nothing
      has purged, with this request hash and no run. */
  lemma RelatedStoresReply(mem: Table<string>, db: Table<PairKey>, c: Call)
    requires Related(mem, db, c.now) && ':' !in c.hash
    ensures c.Reserve? ==> MemoryStep(mem, c).1 == SqlStep(db, c).1
    ensures c.Finalize? ==>
            (MemoryStep(mem, c).1 != SqlStep(db, c).1
             <==> MemoryFinalizes(mem, StringKey(c.scope, c.hash), c.request)
                  && mem[StringKey(c.scope, c.hash)].expiresAt <= c.now)
  {
    var key := StringKey(c.scope, c.hash);
    assert Live(mem, key, c.now) <==> Live(db, (c.scope, c.hash), c.now);
  }

  lemma {:induction false} StoresStayRelated(
    mem: Table<string>, db: Table<PairKey>, calls: seq<Call>, from: int, until: int)
    requires Related(mem, db, from) && Ordered(calls, from) && PlainHashes(calls) && from <= until
    requires forall i :: 0 <= i < |calls| ==> calls[i].now <= until
    ensures Related(MemoryAfter(mem, calls), SqlAfter(db, calls), until)
    decreases |calls|
  {
    if calls == [] {
      RelatedLater(mem, db, from, until);
    } else {
      var c := calls[0];
      RelatedLater(mem, db, from, c.now);
      StepKeepsRelated(mem, db, c);
      StoresStayRelated(MemoryStep(mem, c).0, SqlStep(db, c).0, calls[1..], c.now, until);
    }
  }

  /** After any ordered history of calls on two empty stores, the next reserve is
      answered alike, and so is the next finalize on a record that has not expired. */
  lemma StoresAgree(history: seq<Call>, next: Call)
    requires Ordered(history + [next], 0) && PlainHashes(history + [next])
    ensures var mem, db := MemoryAfter(map[], history), SqlAfter(map[], history);
            var k := StringKey(next.scope, next.hash);
            && (next.Reserve? ==> MemoryStep(mem, next).1 == SqlStep(db, next).1)
            && (next.Finalize? && (k in mem ==> mem[k].expiresAt > next.now)
                ==> MemoryStep(mem, next).1 == SqlStep(db, next).1)
  {
    var all := history + [next];
    assert all[|history|] == next;
    forall i, j | 0 <= i < j < |history| ensures history[i].now <= history[j].now {
      assert all[i] == history[i] && all[j] == history[j];
    }
    forall i | 0 <= i < |history| ensures ':' !in history[i].hash && 0 <= history[i].now <= next.now {
      assert all[i] == history[i];
    }
    StoresStayRelated(map[], map[], history, 0, next.now);
    RelatedStoresReply(MemoryAfter(map[], history), SqlAfter(map[], history), next);
  }

  /** The one divergence is reachable: an expired reservation is finalized in memory
      and refused by the table. */
  lemma ExpiredFinalizeDiverges()
    ensures var first, late := Reserve("s", "h", "r", 0), Finalize("s", "h", "r", "run", TTL);
            && MemoryStep(MemoryStep(map[], first).0, late).1 == Finalizing(true)
            && SqlStep(SqlStep(map[], first).0, late).1 == Finalizing(false)
  {}

  // ---- A finalized key replays until it expires ----

  ghost predicate Holds<K(!new)>(t: Table<K>, k: K, e: Entry) { k in t && t[k] == e }

  lemma {:induction false} SqlFinalizedIsStable(t: Table<PairKey>, k: PairKey, e: Entry, calls: seq<Call>)
    requires Holds(t, k, e) && e.runId.Some?
    requires forall i :: 0 <= i < |calls| ==> calls[i].now < e.expiresAt
    ensures Holds(SqlAfter(t, calls), k, e)
    decreases |calls|
  {
    if calls != [] { SqlFinalizedIsStable(SqlStep(t, calls[0]).0, k, e, calls[1..]); }
  }

  lemma {:induction false} MemoryFinalizedIsStable(t: Table<string>, k: string, e: Entry, calls: seq<Call>)
    requires Holds(t, k, e) && e.runId.Some?
    requires forall i :: 0 <= i < |calls| ==> calls[i].now < e.expiresAt
    ensures Holds(MemoryAfter(t, calls), k, e)
    decreases |calls|
  {
    if calls != [] { MemoryFinalizedIsStable(MemoryStep(t, calls[0]).0, k, e, calls[1..]); }
  }

  /** Once a finalize has succeeded, whatever calls follow, every reserve of that key
      before its expiry replays that run for the same request and conflicts for any
      other - in the table and in memory. */
  lemma FinalizedReplaysUntilExpiry(db: Table<PairKey>, mem: Table<string>, f: Call, later: seq<Call>, r: Call)
    requires f.Finalize? && SqlFinalizes(db, (f.scope, f.hash), f.request, f.now)
    requires MemoryFinalizes(mem, StringKey(f.scope, f.hash), f.request)
    requires mem[StringKey(f.scope, f.hash)].expiresAt == db[(f.scope, f.hash)].expiresAt
    requires forall i :: 0 <= i < |later| ==> later[i].now < db[(f.scope, f.hash)].expiresAt
    requires r.Reserve? && r.scope == f.scope && r.hash == f.hash && r.now < db[(f.scope, f.hash)].expiresAt
    ensures var expected := Reserving(if r.request == f.request then Replay(f.runId) else Conflict);
            && SqlStep(SqlAfter(SqlStep(db, f).0, later), r).1 == expected
            && MemoryStep(MemoryAfter(MemoryStep(mem, f).0, later), r).1 == expected
  {
    var k, k' := (f.scope, f.hash), StringKey(f.scope, f.hash);
    SqlFinalizedIsStable(SqlStep(db, f).0, k, db[k].(runId := Some(f.runId)), later);
    MemoryFinalizedIsStable(MemoryStep(mem, f).0, k', mem[k'].(runId := Some(f.runId)), later);
  }

  // ---- What a caller is told ----

  /** The entry that a reserve of this request at this time leaves behind. */
  ghost predicate ReservedAt<K(!new)>(t: Table<K>, k: K, c: Call) {
    Holds(t, k, Entry(c.request, None, c.now + 86_400_000))
  }

  lemma {:induction false} SqlReservationIsStable(t: Table<PairKey>, c: Call, calls: seq<Call>)
    requires c.Reserve? && ReservedAt(t, (c.scope, c.hash), c)
    requires forall i :: 0 <= i < |calls| ==> calls[i].now < c.now + 86_400_000
    requires forall i :: 0 <= i < |calls| ==>
               calls[i].Reserve? || calls[i].scope != c.scope || calls[i].hash != c.hash
    ensures ReservedAt(SqlAfter(t, calls), (c.scope, c.hash), c)
    decreases |calls|
  {
    if calls != [] { SqlReservationIsStable(SqlStep(t, calls[0]).0, c, calls[1..]); }
  }

  lemma {:induction false} MemoryReservationIsStable(t: Table<string>, c: Call, calls: seq<Call>)
    requires c.Reserve? && ReservedAt(t, StringKey(c.scope, c.hash), c)
    requires forall i :: 0 <= i < |calls| ==> calls[i].now < c.now + 86_400_000
    requires forall i :: 0 <= i < |calls| ==>
               calls[i].Reserve? || StringKey(calls[i].scope, calls[i].hash) != StringKey(c.scope, c.hash)
    ensures ReservedAt(MemoryAfter(t, calls), StringKey(c.scope, c.hash), c)
    decreases |calls|
  {
    if calls != [] { MemoryReservationIsStable(MemoryStep(t, calls[0]).0, c, calls[1..]); }
  }

  /** What a later call on the key is told. */
  function Told(c: Call, r: Call): Reply
    requires c.Reserve? && !r.Abandon?
  {
    if r.Finalize? then Finalizing(r.request == c.request)
    else Reserving(if r.now >= c.now + 86_400_000 then Reserved
                   else if r.request == c.request then Pending
                   else Conflict)
  }

  lemma SqlTells(t: Table<PairKey>, c: Call, r: Call)
    requires c.Reserve? && ReservedAt(t, (c.scope, c.hash), c)
    requires !r.Abandon? && r.scope == c.scope && r.hash == c.hash
    requires r.Finalize? ==> r.now < c.now + 86_400_000
    ensures SqlStep(t, r).1 == Told(c, r)
  {}

  lemma MemoryTells(t: Table<string>, c: Call, r: Call)
    requires c.Reserve? && ReservedAt(t, StringKey(c.scope, c.hash), c)
    requires !r.Abandon? && r.scope == c.scope && r.hash == c.hash
    requires r.Finalize? ==> r.now < c.now + 86_400_000
    ensures MemoryStep(t, r).1 == Told(c, r)
  {
    hide StringKey;
  }

  lemma SqlReserves(t: Table<PairKey>, c: Call)
    requires c.Reserve? && ((c.scope, c.hash) in t ==> t[(c.scope, c.hash)].expiresAt <= c.now)
    ensures SqlStep(t, c).1 == Reserving(Reserved) && ReservedAt(SqlStep(t, c).0, (c.scope, c.hash), c)
  {}

  lemma MemoryReserves(t: Table<string>, c: Call)
    requires c.Reserve?
    requires StringKey(c.scope, c.hash) in t ==> t[StringKey(c.scope, c.hash)].expiresAt <= c.now
    ensures MemoryStep(t, c).1 == Reserving(Reserved)
    ensures ReservedAt(MemoryStep(t, c).0, StringKey(c.scope, c.hash), c)
  {
    hide StringKey;
  }

  /** A key that is new, or whose record has expired, is reserved by the first call. From
      then on, whatever the calls on other keys and whatever the further reserves, a reserve
      of the key is told to wait if it is the same request and that there is a conflict if
      it is another, until a day has passed, when the key is free again; and only a finalize
      of the same request succeeds. So in the table, and so in memory. */
  lemma ReservedForADay(db: Table<PairKey>, mem: Table<string>, c: Call, later: seq<Call>, r: Call)
    requires c.Reserve? && ':' !in c.hash && PlainHashes(later)
    requires (c.scope, c.hash) in db ==> db[(c.scope, c.hash)].expiresAt <= c.now
    requires StringKey(c.scope, c.hash) in mem ==> mem[StringKey(c.scope, c.hash)].expiresAt <= c.now
    requires forall i :: 0 <= i < |later| ==> later[i].now < c.now + 86_400_000
    requires forall i :: 0 <= i < |later| ==>
               later[i].Reserve? || later[i].scope != c.scope || later[i].hash != c.hash
    requires r.scope == c.scope && r.hash == c.hash
    ensures SqlStep(db, c).1 == Reserving(Reserved) && MemoryStep(mem, c).1 == Reserving(Reserved)
    ensures r.Reserve? ==>
              var expected := if r.now >= c.now + 86_400_000 then Reserved
                              else if r.request == c.request then Pending
                              else Conflict;
              && SqlStep(SqlAfter(SqlStep(db, c).0, later), r).1 == Reserving(expected)
              && MemoryStep(MemoryAfter(MemoryStep(mem, c).0, later), r).1 == Reserving(expected)
    ensures r.Finalize? && r.now < c.now + 86_400_000 ==>
              && SqlStep(SqlAfter(SqlStep(db, c).0, later), r).1 == Finalizing(r.request == c.request)
              && MemoryStep(MemoryAfter(MemoryStep(mem, c).0, later), r).1 == Finalizing(r.request == c.request)
  {
    hide StringKey, SqlStep, MemoryStep, SqlAfter, MemoryAfter, ReservedAt;
    forall i | 0 <= i < |later|
      ensures later[i].Reserve? || StringKey(later[i].scope, later[i].hash) != StringKey(c.scope, c.hash)
    {
      StringKeyInjective(later[i].scope, later[i].hash, c.scope, c.hash);
    }
    SqlReserves(db, c);
    MemoryReserves(mem, c);
    SqlReservationIsStable(SqlStep(db, c).0, c, later);
    MemoryReservationIsStable(MemoryStep(mem, c).0, c, later);
    if !r.Abandon? && (r.Finalize? ==> r.now < c.now + 86_400_000) {
      SqlTells(SqlAfter(SqlStep(db, c).0, later), c, r);
      MemoryTells(MemoryAfter(MemoryStep(mem, c).0, later), c, r);
    }
  }

  /** An abandon frees the key of its own pending request at once, and no other: the next
      reserve of the key is told Reserved after it, and otherwise what it would have been. */
  lemma AbandonFrees(db: Table<PairKey>, mem: Table<string>, c: Call, a: Call, r: Call)
    requires c.Reserve? && a.Abandon? && r.Reserve?
    requires ReservedAt(db, (c.scope, c.hash), c) && ReservedAt(mem, StringKey(c.scope, c.hash), c)
    requires a.scope == r.scope == c.scope && a.hash == r.hash == c.hash
    ensures var expected := if a.request == c.request || r.now >= c.now + 86_400_000 then Reserved
                            else if r.request == c.request then Pending
                            else Conflict;
            && SqlStep(SqlStep(db, a).0, r).1 == Reserving(expected)
            && MemoryStep(MemoryStep(mem, a).0, r).1 == Reserving(expected)
  {
    hide StringKey;
  }

  // ---- The SQL statements one by one ----

  /** A reserve is up to four statements, and other callers' statements may come between
      any two of them. */
  datatype Statement =
    | Wait(millis: nat)
    | Insert(key: PairKey, request: string)
    | Select(key: PairKey)
    | DeleteExpired(key: PairKey)
    | Fill(key: PairKey, request: string, runId: string)
    | Remove(key: PairKey, request: string)

  function Executed(t: Table<PairKey>, now: int, s: Statement): Table<PairKey> {
    match s
    case Insert(key, request) => if key in t then t else t[key := Fresh(request, now)]
    case DeleteExpired(key) => if key in t && t[key].expiresAt <= now then t - {key} else t
    case Fill(key, request, runId) => if SqlFinalizes(t, key, request, now) then Filled(t, key, runId) else t
    case Remove(key, request) => Abandoned(t, key, request)
    case _ => t
  }

  /** The insert that adds the row tells its caller Reserved. */
  predicate TellsReserved(t: Table<PairKey>, s: Statement) { s.Insert? && s.key !in t }

  ghost predicate Interleaving(tables: seq<Table<PairKey>>, clocks: seq<int>, ss: seq<Statement>) {
    && |tables| == |clocks| == |ss| + 1
    && (forall i :: 0 <= i < |ss| ==> tables[i + 1] == Executed(tables[i], clocks[i], ss[i]))
    && (forall i :: 0 <= i < |ss| ==> clocks[i + 1] == clocks[i] + if ss[i].Wait? then ss[i].millis else 0)
  }

  /** Without interference the statements of one reserve do what the reserve does as a
      whole: insert; else answer from the unexpired row; else delete and insert. */
  lemma SoloReserve(t: Table<PairKey>, scope: string, hash: string, request: string, now: int)
    ensures var k := (scope, hash);
            var insert := Insert(k, request);
            var (t', answer) := SqlReserve(t, scope, hash, request, now);
            if TellsReserved(t, insert) then t' == Executed(t, now, insert) && answer == Reserved
            else if Live(t, k, now) then t' == t && answer == Answer(t[k], request)
            else
              var cleared := Executed(t, now, DeleteExpired(k));
              TellsReserved(cleared, insert) && t' == Executed(cleared, now, insert) && answer == Reserved
  {
    var k := (scope, hash);
    if k in t && t[k].expiresAt <= now {
      assert (t - {k})[k := Fresh(request, now)] == t[k := Fresh(request, now)];
    }
  }

  lemma {:induction false} ClocksRise(tables: seq<Table<PairKey>>, clocks: seq<int>, ss: seq<Statement>, i: nat, j: nat)
    requires Interleaving(tables, clocks, ss) && i <= j <= |ss|
    ensures clocks[i] <= clocks[j]
    decreases j - i
  {
    if i < j { ClocksRise(tables, clocks, ss, i, j - 1); }
  }

  /** A reserved row outlives everything but its expiry and an abandon of its key. */
  lemma {:induction false} ReservationHolds(
    tables: seq<Table<PairKey>>, clocks: seq<int>, ss: seq<Statement>, i: nat, j: nat)
    requires Interleaving(tables, clocks, ss) && i < j <= |ss| && TellsReserved(tables[i], ss[i])
    requires forall k :: i < k < j ==> !(ss[k].Remove? && ss[k].key == ss[i].key)
    requires clocks[j] < clocks[i] + TTL
    ensures ss[i].key in tables[j] && tables[j][ss[i].key].expiresAt == clocks[i] + TTL
    decreases j
  {
    if i + 1 < j {
      ClocksRise(tables, clocks, ss, j - 1, j);
      ReservationHolds(tables, clocks, ss, i, j - 1);
    }
  }

  /** Over every interleaving of the statements of any number of callers, of two that are
      told Reserved for the same key the second comes when the first one's window is over,
      unless the key was abandoned in between. */
  lemma OneReservationPerWindow(tables: seq<Table<PairKey>>, clocks: seq<int>, ss: seq<Statement>, i: nat, j: nat)
    requires Interleaving(tables, clocks, ss) && i < j < |ss|
    requires TellsReserved(tables[i], ss[i]) && TellsReserved(tables[j], ss[j]) && ss[i].key == ss[j].key
    requires forall k :: i < k < j ==> !(ss[k].Remove? && ss[k].key == ss[i].key)
    ensures clocks[j] >= clocks[i] + TTL
  {
    if clocks[j] < clocks[i] + TTL { ReservationHolds(tables, clocks, ss, i, j); }
  }
}
