/** The two rate limiters: the in-process Map of packages/security/src/index.ts, which
    stops counting once a window is full, and the single-statement SQL upsert of
    packages/runtime/src/persistence.ts, which keeps counting and bounds the window. */
module RateLimit {

  datatype Bucket = Bucket(count: int, resetAt: int)
  datatype Decision = Decision(allowed: bool, remaining: int, resetAt: int)
  datatype Call = Call(key: string, now: int)

  type Buckets = map<string, Bucket>

  const SHORTEST := 1_000
  const LONGEST := 24 * 60 * 60 * 1000

  function Clamp(windowMs: int): int {
    var atLeast := if windowMs > SHORTEST then windowMs else SHORTEST;
    if atLeast < LONGEST then atLeast else LONGEST
  }

  predicate Live(buckets: Buckets, key: string, now: int) {
    key in buckets && buckets[key].resetAt > now
  }

  // ---- What one call does to each store ----

  function MemoryStep(b: Buckets, limit: int, windowMs: int, c: Call): (Buckets, Decision) {
    if !Live(b, c.key, c.now) then
      (b[c.key := Bucket(1, c.now + windowMs)], Decision(true, limit - 1, c.now + windowMs))
    else if b[c.key].count >= limit then
      (b, Decision(false, 0, b[c.key].resetAt))
    else
      (b[c.key := b[c.key].(count := b[c.key].count + 1)],
       Decision(true, limit - (b[c.key].count + 1), b[c.key].resetAt))
  }

  function SqlRow(b: Buckets, windowMs: int, c: Call): Bucket {
    if Live(b, c.key, c.now) then Bucket(b[c.key].count + 1, b[c.key].resetAt)
    else Bucket(1, c.now + Clamp(windowMs))
  }

  function SqlStep(b: Buckets, limit: int, windowMs: int, c: Call): (Buckets, Decision) {
    var row := SqlRow(b, windowMs, c);
    (b[c.key := row],
     Decision(row.count <= limit, if limit - row.count > 0 then limit - row.count else 0, row.resetAt))
  }

  class MemoryLimiter {
    var rateLimits: Buckets

    constructor ()
      ensures rateLimits == map[]
    {
      rateLimits := map[];
    }

    method Consume(key: string, limit: int, windowMs: int, now: int) returns (d: Decision)
      modifies this
      ensures (rateLimits, d) == MemoryStep(old(rateLimits), limit, windowMs, Call(key, now))
      ensures key !in old(rateLimits) || old(rateLimits)[key].resetAt <= now ==>
                d == Decision(true, limit - 1, now + windowMs) && rateLimits[key] == Bucket(1, now + windowMs)
    {
      if key !in rateLimits || rateLimits[key].resetAt <= now {
        rateLimits := rateLimits[key := Bucket(1, now + windowMs)];
        return Decision(true, limit - 1, now + windowMs);
      }
      var current := rateLimits[key];
      if current.count >= limit { return Decision(false, 0, current.resetAt); }
      current := current.(count := current.count + 1);
      rateLimits := rateLimits[key := current];
      d := Decision(true, limit - current.count, current.resetAt);
    }
  }

  class SqlLimiter {
    var rows: Buckets

    constructor ()
      ensures rows == map[]
    {
      rows := map[];
    }

    method Consume(key: string, limit: int, windowMs: int, now: int) returns (d: Decision)
      modifies this
      ensures (rows, d) == SqlStep(old(rows), limit, windowMs, Call(key, now))
      ensures limit >= 1 && 1_000 <= windowMs <= 86_400_000
              && (key !in old(rows) || old(rows)[key].resetAt <= now) ==>
                d == Decision(true, limit - 1, now + windowMs) && rows[key] == Bucket(1, now + windowMs)
    {
      var boundedWindow := Clamp(windowMs);
      if key !in rows {
        rows := rows[key := Bucket(1, now + boundedWindow)];
      } else {
        var row := rows[key];
        rows := rows[key := Bucket(if row.resetAt <= now then 1 else row.count + 1,
                                   if row.resetAt <= now then now + boundedWindow else row.resetAt)];
      }
      var row := rows[key];
      var left := limit - row.count;
      d := Decision(row.count <= limit, if left > 0 then left else 0, row.resetAt);
    }
  }

  // ---- Agreement over whole call sequences ----

  function MemoryRun(b: Buckets, limit: int, windowMs: int, calls: seq<Call>): (ds: seq<Decision>)
    ensures |ds| == |calls|
    decreases |calls|
  {
    if calls == [] then []
    else
      var (b', d) := MemoryStep(b, limit, windowMs, calls[0]);
      [d] + MemoryRun(b', limit, windowMs, calls[1..])
  }

  function SqlRun(b: Buckets, limit: int, windowMs: int, calls: seq<Call>): (ds: seq<Decision>)
    ensures |ds| == |calls|
    decreases |calls|
  {
    if calls == [] then []
    else
      var (b', d) := SqlStep(b, limit, windowMs, calls[0]);
      [d] + SqlRun(b', limit, windowMs, calls[1..])
  }

  /** The stores differ only by the calls counted after a window was already full. */
  ghost predicate Related(mem: Buckets, db: Buckets, limit: int) {
    && mem.Keys == db.Keys
    && forall k :: k in mem ==>
         && mem[k].resetAt == db[k].resetAt
         && mem[k].count == if db[k].count < limit then db[k].count else limit
  }

  lemma {:induction false} RelatedStoresAgree(mem: Buckets, db: Buckets, limit: int, windowMs: int, calls: seq<Call>)
    requires limit >= 1 && SHORTEST <= windowMs <= LONGEST
    requires Related(mem, db, limit)
    ensures MemoryRun(mem, limit, windowMs, calls) == SqlRun(db, limit, windowMs, calls)
    decreases |calls|
  {
    if calls != [] {
      var (mem', d) := MemoryStep(mem, limit, windowMs, calls[0]);
      var (db', d') := SqlStep(db, limit, windowMs, calls[0]);
      assert d == d';
      RelatedStoresAgree(mem', db', limit, windowMs, calls[1..]);
    }
  }

  /** Starting empty, the limiters give identical answers on every call sequence
      exactly when the limit is positive and the window needs no clamping. */
  lemma LimitersAgreeIff(limit: int, windowMs: int)
    ensures (forall calls :: MemoryRun(map[], limit, windowMs, calls) == SqlRun(map[], limit, windowMs, calls))
            <==> limit >= 1 && SHORTEST <= windowMs <= LONGEST
  {
    if limit >= 1 && SHORTEST <= windowMs <= LONGEST {
      forall calls ensures MemoryRun(map[], limit, windowMs, calls) == SqlRun(map[], limit, windowMs, calls) {
        RelatedStoresAgree(map[], map[], limit, windowMs, calls);
      }
    } else {
      var one := [Call("k", 0)];
      assert MemoryRun(map[], limit, windowMs, one)[0] == Decision(true, limit - 1, windowMs);
      assert SqlRun(map[], limit, windowMs, one)[0].resetAt == Clamp(windowMs);
      assert SqlRun(map[], limit, windowMs, one)[0].allowed == (1 <= limit);
      assert MemoryRun(map[], limit, windowMs, one) != SqlRun(map[], limit, windowMs, one);
    }
  }

  // ---- How many calls one interval can admit ----

  predicate Ordered(calls: seq<Call>) {
    forall i, j :: 0 <= i < j < |calls| ==> calls[i].now <= calls[j].now
  }

  /** Calls on `key` admitted at a time in [from, until). */
  function Admitted(b: Buckets, limit: int, windowMs: int, calls: seq<Call>, key: string, from: int, until: int): nat
    decreases |calls|
  {
    if calls == [] then 0
    else
      var (b', d) := SqlStep(b, limit, windowMs, calls[0]);
      (if d.allowed && calls[0].key == key && from <= calls[0].now < until then 1 else 0)
        + Admitted(b', limit, windowMs, calls[1..], key, from, until)
  }

  predicate CountsPositive(b: Buckets) { forall k :: k in b ==> b[k].count >= 1 }

  /** Inside the current window a key admits at most its remaining room. */
  lemma {:induction false} WithinOneWindow(
    b: Buckets, limit: int, windowMs: int, calls: seq<Call>, key: string, from: int, until: int)
    requires limit >= 1 && Ordered(calls) && key in b && until <= b[key].resetAt
    ensures Admitted(b, limit, windowMs, calls, key, from, until)
            <= if b[key].count < limit then limit - b[key].count else 0
    decreases |calls|
  {
    if calls != [] {
      var (b', d) := SqlStep(b, limit, windowMs, calls[0]);
      if calls[0].key == key && calls[0].now >= b[key].resetAt {
        NothingLater(b', limit, windowMs, calls[1..], key, from, until);
      } else {
        WithinOneWindow(b', limit, windowMs, calls[1..], key, from, until);
      }
    }
  }

  lemma {:induction false} NothingLater(
    b: Buckets, limit: int, windowMs: int, calls: seq<Call>, key: string, from: int, until: int)
    requires forall i :: 0 <= i < |calls| ==> calls[i].now >= until
    ensures Admitted(b, limit, windowMs, calls, key, from, until) == 0
    decreases |calls|
  {
    if calls != [] {
      var (b', d) := SqlStep(b, limit, windowMs, calls[0]);
      NothingLater(b', limit, windowMs, calls[1..], key, from, until);
    }
  }

  /** A half-open interval of one window length meets at most two windows, so it
      admits at most twice the limit, whatever the state it starts in. */
  lemma {:induction false} AtMostTwiceTheLimit(
    b: Buckets, limit: int, windowMs: int, calls: seq<Call>, key: string, from: int)
    requires limit >= 1 && Ordered(calls) && CountsPositive(b)
    ensures Admitted(b, limit, windowMs, calls, key, from, from + Clamp(windowMs)) <= 2 * limit
    ensures key in b && b[key].resetAt > from ==>
            Admitted(b, limit, windowMs, calls, key, from, from + Clamp(windowMs))
            <= (if b[key].count < limit then limit - b[key].count else 0) + limit
    decreases |calls|
  {
    var until := from + Clamp(windowMs);
    if calls != [] {
      var c := calls[0];
      var (b', d) := SqlStep(b, limit, windowMs, c);
      AtMostTwiceTheLimit(b', limit, windowMs, calls[1..], key, from);
      if c.key == key && c.now >= from && !Live(b, key, c.now) {
        WithinOneWindow(b', limit, windowMs, calls[1..], key, from, until);
      }
    }
  }

  // ---- The same for the in-process limiter, which clamps nothing ----

  function AdmittedByMemory(
    b: Buckets, limit: int, windowMs: int, calls: seq<Call>, key: string, from: int, until: int): nat
    decreases |calls|
  {
    if calls == [] then 0
    else
      var (b', d) := MemoryStep(b, limit, windowMs, calls[0]);
      (if d.allowed && calls[0].key == key && from <= calls[0].now < until then 1 else 0)
        + AdmittedByMemory(b', limit, windowMs, calls[1..], key, from, until)
  }

  /** What one window admits: its first call always, even if the limit is not positive. */
  function Quota(limit: int): nat { if limit > 1 then limit else 1 }

  function Room(limit: int, count: int): nat { if count < Quota(limit) then Quota(limit) - count else 0 }

  lemma {:induction false} MemoryWithinOneWindow(
    b: Buckets, limit: int, windowMs: int, calls: seq<Call>, key: string, from: int, until: int)
    requires Ordered(calls) && key in b && b[key].count >= 1 && until <= b[key].resetAt
    ensures AdmittedByMemory(b, limit, windowMs, calls, key, from, until) <= Room(limit, b[key].count)
    decreases |calls|
  {
    if calls != [] {
      var (b', d) := MemoryStep(b, limit, windowMs, calls[0]);
      if calls[0].key == key && calls[0].now >= b[key].resetAt {
        MemoryNothingLater(b', limit, windowMs, calls[1..], key, from, until);
      } else {
        MemoryWithinOneWindow(b', limit, windowMs, calls[1..], key, from, until);
      }
    }
  }

  lemma {:induction false} MemoryNothingLater(
    b: Buckets, limit: int, windowMs: int, calls: seq<Call>, key: string, from: int, until: int)
    requires forall i :: 0 <= i < |calls| ==> calls[i].now >= until
    ensures AdmittedByMemory(b, limit, windowMs, calls, key, from, until) == 0
    decreases |calls|
  {
    if calls != [] {
      var (b', d) := MemoryStep(b, limit, windowMs, calls[0]);
      MemoryNothingLater(b', limit, windowMs, calls[1..], key, from, until);
    }
  }

  /** For every limit and every window, from any state that calls can reach: a half-open
      interval of one window length admits at most twice what one window admits. */
  lemma {:induction false} MemoryAtMostTwiceTheLimit(
    b: Buckets, limit: int, windowMs: int, calls: seq<Call>, key: string, from: int)
    requires Ordered(calls) && CountsPositive(b)
    ensures AdmittedByMemory(b, limit, windowMs, calls, key, from, from + windowMs) <= 2 * Quota(limit)
    ensures key in b && b[key].resetAt > from ==>
            AdmittedByMemory(b, limit, windowMs, calls, key, from, from + windowMs)
            <= Room(limit, b[key].count) + Quota(limit)
    decreases |calls|
  {
    var until := from + windowMs;
    if calls != [] {
      var c := calls[0];
      var (b', d) := MemoryStep(b, limit, windowMs, c);
      MemoryAtMostTwiceTheLimit(b', limit, windowMs, calls[1..], key, from);
      if c.key == key && c.now >= from && !Live(b, key, c.now) {
        MemoryWithinOneWindow(b', limit, windowMs, calls[1..], key, from, until);
      }
    }
  }

  // ---- Windows open again ----

  datatype Kind = InProcess | Database

  function Run(kind: Kind, b: Buckets, limit: int, windowMs: int, calls: seq<Call>): (ds: seq<Decision>)
    ensures |ds| == |calls|
  {
    if kind == InProcess then MemoryRun(b, limit, windowMs, calls) else SqlRun(b, limit, windowMs, calls)
  }

  function Step(kind: Kind, b: Buckets, limit: int, windowMs: int, c: Call): (Buckets, Decision) {
    if kind == InProcess then MemoryStep(b, limit, windowMs, c) else SqlStep(b, limit, windowMs, c)
  }

  function CallsOn(key: string, calls: seq<Call>): (n: nat)
    ensures n <= |calls|
  {
    if calls == [] then 0 else (if calls[0].key == key then 1 else 0) + CallsOn(key, calls[1..])
  }

  /** How many of the calls on a key were admitted. */
  function AdmittedOn(key: string, calls: seq<Call>, ds: seq<Decision>): nat
    requires |ds| == |calls|
  {
    if calls == [] then 0
    else (if calls[0].key == key && ds[0].allowed then 1 else 0) + AdmittedOn(key, calls[1..], ds[1..])
  }

  function Least(m: int, n: int): int { if m < n then m else n }

  /** The answer to the k-th call of a window that ends at resetAt. */
  function Answer(k: int, limit: int, resetAt: int): Decision {
    Decision(k <= limit, if k <= limit then limit - k else 0, resetAt)
  }

  /** n calls of the current window have been counted; the memory stops at its limit. */
  ghost predicate Counted(kind: Kind, b: Buckets, limit: int, key: string, n: nat, resetAt: int) {
    key in b && b[key] == Bucket(if kind == InProcess then Least(n, limit) else n, resetAt)
  }

  lemma RunFirst(kind: Kind, b: Buckets, limit: int, windowMs: int, calls: seq<Call>)
    requires calls != []
    ensures var (b', d) := Step(kind, b, limit, windowMs, calls[0]);
            Run(kind, b, limit, windowMs, calls) == [d] + Run(kind, b', limit, windowMs, calls[1..])
  {}

  lemma CountsOne(
    kind: Kind, b: Buckets, limit: int, windowMs: int, c: Call, key: string, n: nat, resetAt: int)
    requires limit >= 1 && Counted(kind, b, limit, key, n, resetAt)
    requires c.key == key ==> c.now < resetAt
    ensures var (b', d) := Step(kind, b, limit, windowMs, c);
            if c.key == key then Counted(kind, b', limit, key, n + 1, resetAt) && d == Answer(n + 1, limit, resetAt)
            else Counted(kind, b', limit, key, n, resetAt)
  {}

  lemma OpensWindow(kind: Kind, b: Buckets, limit: int, windowMs: int, c: Call)
    requires limit >= 1 && (c.key !in b || b[c.key].resetAt <= c.now)
    ensures var (b', d) := Step(kind, b, limit, windowMs, c);
            var ends := c.now + if kind == InProcess then windowMs else Clamp(windowMs);
            Counted(kind, b', limit, c.key, 1, ends) && d == Answer(1, limit, ends)
  {}

  /** One answer in front of the answers to the rest, all as counted. */
  lemma AnswersCons(calls: seq<Call>, key: string, n: nat, limit: int, resetAt: int, d: Decision, ds: seq<Decision>)
    requires calls != [] && |ds| == |calls| - 1
    requires calls[0].key == key ==> d == Answer(n + 1, limit, resetAt)
    requires var m := if calls[0].key == key then n + 1 else n;
             forall i :: 0 <= i < |ds| && calls[1..][i].key == key ==>
               ds[i] == Answer(m + CallsOn(key, calls[1..][..i + 1]), limit, resetAt)
    ensures forall i :: 0 <= i < |calls| && calls[i].key == key ==>
              ([d] + ds)[i] == Answer(n + CallsOn(key, calls[..i + 1]), limit, resetAt)
  {
    hide Answer;
    forall i | 0 <= i < |calls| && calls[i].key == key
      ensures ([d] + ds)[i] == Answer(n + CallsOn(key, calls[..i + 1]), limit, resetAt)
    {
      assert calls[..i + 1][1..] == calls[1..][..i];
      if i > 0 { assert calls[i] == calls[1..][i - 1] && ([d] + ds)[i] == ds[i - 1]; }
    }
  }

  lemma {:induction false} WindowContinues(
    kind: Kind, b: Buckets, limit: int, windowMs: int, calls: seq<Call>, key: string, n: nat, resetAt: int)
    requires limit >= 1 && Counted(kind, b, limit, key, n, resetAt)
    requires forall i :: 0 <= i < |calls| && calls[i].key == key ==> calls[i].now < resetAt
    ensures forall i :: 0 <= i < |calls| && calls[i].key == key ==>
              Run(kind, b, limit, windowMs, calls)[i] == Answer(n + CallsOn(key, calls[..i + 1]), limit, resetAt)
    ensures AdmittedOn(key, calls, Run(kind, b, limit, windowMs, calls))
            == Least(CallsOn(key, calls), if n < limit then limit - n else 0)
    decreases |calls|
  {
    hide Step, Run, Counted;
    if calls != [] {
      var (b', d) := Step(kind, b, limit, windowMs, calls[0]);
      var m := if calls[0].key == key then n + 1 else n;
      RunFirst(kind, b, limit, windowMs, calls);
      CountsOne(kind, b, limit, windowMs, calls[0], key, n, resetAt);
      WindowContinues(kind, b', limit, windowMs, calls[1..], key, m, resetAt);
      AnswersCons(calls, key, n, limit, resetAt, d, Run(kind, b', limit, windowMs, calls[1..]));
    }
  }

  /** The window a call opens when its key is new or its last window is over: the k-th of
      the key's calls before the window ends is answered with limit - k left, so that of n
      calls exactly min(n, limit) are admitted. */
  lemma {:induction false} OneWindow(
    kind: Kind, b: Buckets, limit: int, windowMs: int, calls: seq<Call>, key: string, ends: int)
    requires limit >= 1 && calls != [] && calls[0].key == key
    requires key !in b || b[key].resetAt <= calls[0].now
    requires kind == InProcess ==> ends == calls[0].now + windowMs
    requires kind == Database ==>
               ends == calls[0].now + if windowMs < 1_000 then 1_000
                                      else if windowMs > 86_400_000 then 86_400_000
                                      else windowMs
    requires forall i :: 1 <= i < |calls| && calls[i].key == key ==> calls[i].now < ends
    ensures forall i :: 0 <= i < |calls| && calls[i].key == key ==>
              var k := CallsOn(key, calls[..i + 1]);
              Run(kind, b, limit, windowMs, calls)[i] == Decision(k <= limit, if k <= limit then limit - k else 0, ends)
    ensures AdmittedOn(key, calls, Run(kind, b, limit, windowMs, calls)) == Least(CallsOn(key, calls), limit)
  {
    hide Step, Run, Counted;
    var (b', d) := Step(kind, b, limit, windowMs, calls[0]);
    OpensWindow(kind, b, limit, windowMs, calls[0]);
    assert ([d] + Run(kind, b', limit, windowMs, calls[1..]))[1..] == Run(kind, b', limit, windowMs, calls[1..]);
    RunFirst(kind, b, limit, windowMs, calls);
    WindowContinues(kind, b', limit, windowMs, calls[1..], key, 1, ends);
    AnswersCons(calls, key, 0, limit, ends, d, Run(kind, b', limit, windowMs, calls[1..]));
  }

  function After(kind: Kind, b: Buckets, limit: int, windowMs: int, calls: seq<Call>): Buckets
    decreases |calls|
  {
    if calls == [] then b
    else After(kind, Step(kind, b, limit, windowMs, calls[0]).0, limit, windowMs, calls[1..])
  }

  lemma EmptyRun(kind: Kind, b: Buckets, limit: int, windowMs: int)
    ensures Run(kind, b, limit, windowMs, []) == [] && After(kind, b, limit, windowMs, []) == b
  {}

  lemma {:induction false} RunSplits(kind: Kind, b: Buckets, limit: int, windowMs: int, calls: seq<Call>, i: nat)
    requires i <= |calls|
    ensures Run(kind, b, limit, windowMs, calls)
            == Run(kind, b, limit, windowMs, calls[..i])
               + Run(kind, After(kind, b, limit, windowMs, calls[..i]), limit, windowMs, calls[i..])
    decreases i
  {
    hide Step, Run;
    if i == 0 {
      assert calls[0..] == calls && calls[..0] == [];
      EmptyRun(kind, b, limit, windowMs);
    } else {
      RunFirst(kind, b, limit, windowMs, calls);
      RunFirst(kind, b, limit, windowMs, calls[..i]);
      var (b', d) := Step(kind, b, limit, windowMs, calls[0]);
      RunSplits(kind, b', limit, windowMs, calls[1..], i - 1);
      assert calls[..i][1..] == calls[1..][..i - 1];
      assert calls[1..][i - 1..] == calls[i..];
    }
  }

  /** A stored window is the one the last answer on its key named. */
  lemma {:induction false} LastAnswer(
    kind: Kind, b: Buckets, limit: int, windowMs: int, calls: seq<Call>, key: string)
    ensures var after, ds := After(kind, b, limit, windowMs, calls), Run(kind, b, limit, windowMs, calls);
            key in after ==>
              || (key in b && after[key] == b[key] && forall j :: 0 <= j < |calls| ==> calls[j].key != key)
              || exists j :: 0 <= j < |calls| && Last(calls, key, j) && ds[j].resetAt == after[key].resetAt
    decreases |calls|
  {
    if calls != [] {
      var (b', d) := Step(kind, b, limit, windowMs, calls[0]);
      var rest, ds := calls[1..], Run(kind, b, limit, windowMs, calls);
      LastAnswer(kind, b', limit, windowMs, rest, key);
      var after := After(kind, b', limit, windowMs, rest);
      if key in after {
        if j :| 0 <= j < |rest| && Last(rest, key, j)
                && Run(kind, b', limit, windowMs, rest)[j].resetAt == after[key].resetAt {
          assert Last(calls, key, j + 1) && ds[j + 1] == Run(kind, b', limit, windowMs, rest)[j];
        } else if calls[0].key == key {
          assert Last(calls, key, 0);
        } else {
          assert key in b && b'[key] == b[key];
        }
      }
    }
  }

  ghost predicate Last(calls: seq<Call>, key: string, j: int) {
    0 <= j < |calls| && calls[j].key == key && forall m :: j < m < |calls| ==> calls[m].key != key
  }

  /** Over every history of an empty store: a call whose key has no earlier call, or whose
      last earlier answer named an end that has come, opens a window and is admitted, and
      the window answers its calls in order until it ends. */
  lemma {:induction false} EveryWindow(
    kind: Kind, limit: int, windowMs: int, calls: seq<Call>, i: nat, k: nat, ends: int)
    requires limit >= 1 && i <= k < |calls| && calls[k].key == calls[i].key
    requires forall j :: Last(calls[..i], calls[i].key, j) ==>
               Run(kind, map[], limit, windowMs, calls)[j].resetAt <= calls[i].now
    requires kind == InProcess ==> ends == calls[i].now + windowMs
    requires kind == Database ==>
               ends == calls[i].now + if windowMs < 1_000 then 1_000
                                      else if windowMs > 86_400_000 then 86_400_000
                                      else windowMs
    requires forall j :: i < j <= k && calls[j].key == calls[i].key ==> calls[j].now < ends
    ensures var n := CallsOn(calls[i].key, calls[i..k + 1]);
            Run(kind, map[], limit, windowMs, calls)[k]
            == Decision(n <= limit, if n <= limit then limit - n else 0, ends)
  {
    hide Run, After, CallsOn;
    var key, before := calls[i].key, calls[..i];
    var b := After(kind, map[], limit, windowMs, before);
    RunSplits(kind, map[], limit, windowMs, calls, i);
    LastAnswer(kind, map[], limit, windowMs, before, key);
    RunSplits(kind, b, limit, windowMs, calls[i..], k + 1 - i);
    assert calls[i..][..k + 1 - i] == calls[i..k + 1];
    OneWindow(kind, b, limit, windowMs, calls[i..k + 1], key, ends);
    assert calls[i..k + 1][..k + 1 - i] == calls[i..k + 1];
  }
}
