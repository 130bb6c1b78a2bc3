/** Hash-chained run events: appendEvent and the chain scan of verifyBundle,
    packages/evidence/src/index.ts. */
module EventChain {
  import opened Wrappers
  import opened Records
  import opened Hashing
  import opened Numerals

  /** evt_001, evt_002, ... : at least three digits. */
  function EventId(n: nat): string {
    var digits := Decimal(n);
    "evt_" + (if |digits| == 1 then "00" + digits else if |digits| == 2 then "0" + digits else digits)
  }

  lemma EventIdInjective(m: nat, n: nat)
    ensures EventId(m) == EventId(n) ==> m == n
  {
    EventIdValue(m);
    EventIdValue(n);
  }

  lemma EventIdValue(n: nat)
    ensures ValueOf(EventId(n)[4..]) == n
  {
    var digits := Decimal(n);
    DecimalValue(n);
    LeadingZero(digits);
    LeadingZero("0" + digits);
    assert "0" + ("0" + digits) == "00" + digits;
    assert EventId(n)[4..] == if |digits| == 1 then "00" + digits else if |digits| == 2 then "0" + digits else digits;
  }

  /** An event id is the number in at least three digits, padded no further than that. */
  lemma EventIdText(n: nat)
    ensures var id := EventId(n);
            && |id| >= 7 && id[..4] == "evt_"
            && (forall i :: 4 <= i < |id| ==> '0' <= id[i] <= '9')
            && ValueOf(id[4..]) == n
            && (|id| > 7 ==> id[4] != '0')
  {
    EventIdValue(n);
    DecimalDigits(n);
    assert EventId(n)[..4] == "evt_";
  }

  /** The hash of the last event, or the zeros if there is none. */
  function Head(events: seq<RunEvent>): Json {
    if events == [] then JString(ZEROS)
    else
      var hash := events[|events| - 1].hash;
      if hash.None? || hash.value == JNull then JString(ZEROS) else hash.value
  }

  function InputFields(input: EventInput): map<string, Json> {
    map["at" := JString(input.at), "state" := JString(StateName(input.state)), "type" := JString(input.kind),
        "message" := JString(input.message)]
    + if input.detail.Some? then map["detail" := input.detail.value] else map[]
  }

  /** The event that appendEvent adds after `events`. */
  function Sealed(h: Hasher, events: seq<RunEvent>, input: EventInput): RunEvent {
    var base := EventBase(Some(JNumber(|events| as real)), Some(JString(EventId(|events| + 1))), Some(Head(events)),
                          InputFields(input));
    RunEvent(base, Some(JString(h.json(VEvent(base)))))
  }

  /** What an appended event says of itself: nothing but what the caller gave, beside its
      place in the chain. */
  lemma SealedSays(h: Hasher, events: seq<RunEvent>, input: EventInput)
    ensures var e := Sealed(h, events, input);
            && e.base.index == Some(JNumber(|events| as real))
            && e.base.id == Some(JString(EventId(|events| + 1)))
            && e.hash == Some(JString(h.json(VEvent(e.base))))
            && e.base.rest.Keys == {"at", "state", "type", "message"}
                                   + (if input.detail.Some? then {"detail"} else {})
            && e.base.rest["at"] == JString(input.at) && e.base.rest["state"] == JString(StateName(input.state))
            && e.base.rest["type"] == JString(input.kind) && e.base.rest["message"] == JString(input.message)
            && (input.detail.Some? ==> e.base.rest["detail"] == input.detail.value)
    ensures var previous := Sealed(h, events, input).base.previousHash;
            if |events| > 0 && events[|events| - 1].hash.Some? && events[|events| - 1].hash.value != JNull
            then previous == events[|events| - 1].hash
            else previous == Some(JString("0000000000000000000000000000000000000000000000000000000000000000"))
  {
    hide EventId;
  }

  class EventLog {
    var events: seq<RunEvent>

    constructor (initial: seq<RunEvent>)
      ensures events == initial
    {
      events := initial;
    }

    method Append(h: Hasher, input: EventInput) returns (event: RunEvent)
      modifies this
      ensures event == Sealed(h, old(events), input)
      ensures events == old(events) + [event]
    {
      var last := if |events| > 0 then events[|events| - 1].hash else None;
      var previousHash := if last.None? || last.value == JNull then JString(ZEROS) else last.value;
      var base := EventBase(Some(JNumber(|events| as real)), Some(JString(EventId(|events| + 1))), Some(previousHash),
                            InputFields(input));
      event := RunEvent(base, Some(JString(h.json(VEvent(base)))));
      events := events + [event];
    }
  }

  /** Event i has its own position and id, links to its predecessor and carries its hash. */
  predicate Linked(h: Hasher, events: seq<RunEvent>, i: nat)
    requires i < |events|
  {
    var e := events[i];
    && e.base.index == Some(JNumber(i as real))
    && e.base.id == Some(JString(EventId(i + 1)))
    && e.base.previousHash == Some(Head(events[..i]))
    && Some(JString(h.json(VEvent(e.base)))) == e.hash
  }

  predicate ValidChain(h: Hasher, events: seq<RunEvent>) {
    forall i :: 0 <= i < |events| ==> Linked(h, events, i)
  }

  /** How many leading events are linked. */
  function LinkedLength(h: Hasher, events: seq<RunEvent>, i: nat): (n: nat)
    requires i <= |events|
    ensures i <= n <= |events|
    ensures forall j :: i <= j < n ==> Linked(h, events, j)
    ensures n < |events| ==> !Linked(h, events, n)
    decreases |events| - i
  {
    if i < |events| && Linked(h, events, i) then LinkedLength(h, events, i + 1) else i
  }

  /** The scan of verifyBundle. `mismatch` is the id of the first bad event, whatever
      that is; like `undefined` in the source, None stands both for an absent id and for
      no bad event. The duplicate-id test never fires before another one does, because
      linked ids are pairwise different. */
  method ScanChain(h: Hasher, events: seq<RunEvent>) returns (mismatch: Option<Json>, previous: Json)
    ensures var n := LinkedLength(h, events, 0);
            && mismatch == (if n < |events| then events[n].base.id else None)
            && previous == Head(events[..n])
  {
    hide EventId, Head;
    previous := JString(ZEROS);
    EmptyHead();
    mismatch := None;
    var eventIds: set<Option<Json>> := {};
    var index := 0;
    while index < |events|
      invariant 0 <= index <= |events|
      invariant forall j :: 0 <= j < index ==> Linked(h, events, j)
      invariant previous == Head(events[..index])
      invariant forall id :: id in eventIds ==> exists j :: 0 <= j < index && id == events[j].base.id
    {
      var event := events[index];
      var expected := Some(JString(EventId(index + 1)));
      if event.base.id in eventIds && event.base.id == expected {
        var j :| 0 <= j < index && event.base.id == events[j].base.id;
        assert Linked(h, events, j);
        EventIdInjective(j + 1, index + 1);
        assert false;
      }
      if event.base.index != Some(JNumber(index as real)) || event.base.id != expected || event.base.id in eventIds
         || event.base.previousHash != Some(previous) || Some(JString(h.json(VEvent(event.base)))) != event.hash {
        LinkedLengthIs(h, events, 0, index);
        return event.base.id, previous;
      }
      assert Linked(h, events, index);
      eventIds := eventIds + {event.base.id};
      LinkedHead(h, events, index);
      previous := event.hash.value;
      index := index + 1;
    }
    LinkedLengthIs(h, events, 0, |events|);
  }

  lemma EmptyHead()
    ensures Head([]) == JString(ZEROS)
  {}

  lemma LinkedHead(h: Hasher, events: seq<RunEvent>, i: nat)
    requires i < |events| && Linked(h, events, i)
    ensures events[i].hash.Some? && Head(events[..i + 1]) == events[i].hash.value
            == JString(h.json(VEvent(events[i].base)))
  {
    assert events[..i + 1][i] == events[i];
  }

  lemma {:induction false} LinkedLengthIs(h: Hasher, events: seq<RunEvent>, i: nat, n: nat)
    requires i <= n <= |events|
    requires forall j :: i <= j < n ==> Linked(h, events, j)
    requires n < |events| ==> !Linked(h, events, n)
    ensures LinkedLength(h, events, i) == n
    decreases n - i
  {
    if i < n { LinkedLengthIs(h, events, i + 1, n); }
  }

  lemma PrefixLinked(h: Hasher, events: seq<RunEvent>, n: nat)
    requires n <= |events| && forall j :: 0 <= j < n ==> Linked(h, events, j)
    ensures ValidChain(h, events[..n])
  {
    forall j | 0 <= j < n ensures Linked(h, events[..n], j) {
      assert Linked(h, events, j);
      assert events[..n][..j] == events[..j];
    }
  }

  lemma AppendKeepsChain(h: Hasher, events: seq<RunEvent>, input: EventInput)
    requires ValidChain(h, events)
    ensures ValidChain(h, events + [Sealed(h, events, input)])
  {
    var longer := events + [Sealed(h, events, input)];
    forall j | 0 <= j < |longer| ensures Linked(h, longer, j) {
      assert longer[..j] == events[..j];
      if j < |events| { assert Linked(h, events, j); } else { assert events[..j] == events; }
    }
  }

  /** The log after a sequence of appendEvent calls on an empty list. */
  function Appended(h: Hasher, inputs: seq<EventInput>): seq<RunEvent> {
    if inputs == [] then []
    else
      var before := Appended(h, inputs[..|inputs| - 1]);
      before + [Sealed(h, before, inputs[|inputs| - 1])]
  }

  /** Whatever is appended, the whole chain scans without a mismatch. */
  lemma {:induction false} AppendedIsLinked(h: Hasher, inputs: seq<EventInput>)
    ensures ValidChain(h, Appended(h, inputs))
    ensures |Appended(h, inputs)| == |inputs|
    ensures LinkedLength(h, Appended(h, inputs), 0) == |inputs|
  {
    if inputs != [] {
      AppendedIsLinked(h, inputs[..|inputs| - 1]);
      AppendKeepsChain(h, Appended(h, inputs[..|inputs| - 1]), inputs[|inputs| - 1]);
    }
    LinkedLengthIs(h, Appended(h, inputs), 0, |inputs|);
  }

  ghost function ChainValues(events: seq<RunEvent>): set<Value> { set e | e in events :: VEvent(e.base) }

  ghost predicate NoZeroDigest(h: Hasher, values: set<Value>) {
    forall v :: v in values ==> h.json(v) != ZEROS
  }

  lemma ChainHashed(h: Hasher, events: seq<RunEvent>)
    requires ValidChain(h, events) && events != []
    ensures VEvent(events[|events| - 1].base) in ChainValues(events)
    ensures Head(events) == JString(h.json(VEvent(events[|events| - 1].base)))
    ensures ValidChain(h, events[..|events| - 1])
    ensures Some(Head(events[..|events| - 1])) == events[|events| - 1].base.previousHash
    ensures ChainValues(events[..|events| - 1]) <= ChainValues(events)
  {
    var last := events[|events| - 1];
    assert last in events;
    assert Linked(h, events, |events| - 1);
    PrefixLinked(h, events, |events| - 1);
  }

  /** The head of a valid chain determines every event before it, hence the length. */
  lemma {:induction false} HeadBindsChain(h: Hasher, a: seq<RunEvent>, b: seq<RunEvent>)
    requires ValidChain(h, a) && ValidChain(h, b) && Head(a) == Head(b)
    requires CollisionFree(h, ChainValues(a) + ChainValues(b), {})
    requires NoZeroDigest(h, ChainValues(a) + ChainValues(b))
    ensures a == b
    decreases |a|
  {
    if a != [] { ChainHashed(h, a); }
    if b != [] { ChainHashed(h, b); }
    if a != [] && b != [] {
      var m, n := |a| - 1, |b| - 1;
      assert a[m].base == b[n].base;
      assert Linked(h, a, m) && Linked(h, b, n);
      HeadBindsChain(h, a[..m], b[..n]);
      assert a == a[..m] + [a[m]] && b == b[..n] + [b[n]];
    }
  }
}
