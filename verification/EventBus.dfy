/** The event stream between the two services: best-effort publishing
    (backend-core/src/common/events/event-publisher.service.ts) and the consumer group that bumps the
    cache version (matching-service/app/services/event_consumer.py). */
module EventBus {
  import opened Basics

  const READ_COUNT: nat := 10
  const INVALIDATING: set<string> := {"gear.validated", "gear.rejected", "freelance.updated"}

  // ----- Stream entries -----

  /** The flat field list of one stream entry: key, value, key, value, ... */
  type Fields = seq<string>

  function PayloadFields(payload: seq<(string, string)>): Fields {
    if payload == [] then []
    else
      var (key, value) := payload[|payload| - 1];
      PayloadFields(payload[..|payload| - 1]) + [key, value]
  }

  function EventFields(eventType: string, payload: seq<(string, string)>): Fields {
    ["type", eventType] + PayloadFields(payload)
  }

  /** What the consumer's dictionary holds under a key: the last such field wins. */
  function FieldOf(fields: Fields, key: string): Option<string> {
    if |fields| < 2 then None
    else
      var later := FieldOf(fields[2..], key);
      if later.Some? then later
      else if fields[0] == key then Some(fields[1]) else None
  }

  function TypeOf(fields: Fields): Option<string> {
    FieldOf(fields, "type")
  }

  predicate Invalidating(fields: Fields) {
    TypeOf(fields).Some? && TypeOf(fields).value in INVALIDATING
  }

  lemma {:induction false} FieldOfSplit(front: Fields, back: Fields, key: string)
    requires |front| % 2 == 0
    ensures FieldOf(front + back, key) == if FieldOf(back, key).Some? then FieldOf(back, key) else FieldOf(front, key)
  {
    if front == [] {
      assert front + back == back;
    } else {
      assert (front + back)[2..] == front[2..] + back;
      FieldOfSplit(front[2..], back, key);
    }
  }

  /** The value of the last payload pair with that key. */
  function LastValue(payload: seq<(string, string)>, key: string): Option<string> {
    if payload == [] then None
    else
      var (k, value) := payload[|payload| - 1];
      if k == key then Some(value) else LastValue(payload[..|payload| - 1], key)
  }

  lemma {:induction false} PayloadField(payload: seq<(string, string)>, key: string)
    ensures |PayloadFields(payload)| % 2 == 0
    ensures FieldOf(PayloadFields(payload), key) == LastValue(payload, key)
  {
    if payload != [] {
      var (k, value) := payload[|payload| - 1];
      PayloadField(payload[..|payload| - 1], key);
      FieldOfSplit(PayloadFields(payload[..|payload| - 1]), [k, value], key);
      assert [k, value][2..] == [];
    }
  }

  lemma {:induction false} NoSuchKey(payload: seq<(string, string)>, key: string)
    requires forall pair :: pair in payload ==> pair.0 != key
    ensures LastValue(payload, key) == None
  {
    if payload != [] {
      assert payload[|payload| - 1] in payload;
      NoSuchKey(payload[..|payload| - 1], key);
    }
  }

  /** What is published is read back: the payload's last value for its key, and the type where the payload has
      none. */
  lemma PublishedFieldIsRead(eventType: string, payload: seq<(string, string)>, key: string)
    ensures FieldOf(EventFields(eventType, payload), key)
         == if LastValue(payload, key).Some? then LastValue(payload, key) else if key == "type" then Some(eventType) else None
  {
    PayloadField(payload, key);
    FieldOfSplit(["type", eventType], PayloadFields(payload), key);
    assert ["type", eventType][2..] == [];
  }

  /** So the consumer reads the type the backend published if and only if the payload does not override it: no
      pair has the key "type", or the last one that has it repeats the type. */
  lemma PublishedTypeIsRead(eventType: string, payload: seq<(string, string)>)
    ensures TypeOf(EventFields(eventType, payload)) == Some(eventType)
       <==> LastValue(payload, "type").None? || LastValue(payload, "type") == Some(eventType)
  {
    PublishedFieldIsRead(eventType, payload, "type");
  }

  // ----- The bus as a step machine -----

  /** Redis and the consumer together. Entries are numbered in append order. `[next, cursor)` is what
      the consumer has read and not finished; `acking` says entry `next` is handled and about to be
      acknowledged. `attempted` and `bumped` are history: entries handed to the handler, in order, and
      entries whose INCR ran. */
  datatype Bus = Bus(
    stream: seq<Fields>,
    cursor: nat,
    pending: set<nat>,
    acked: set<nat>,
    version: nat,
    next: nat,
    acking: bool,
    attempted: seq<nat>,
    bumped: set<nat>)

  const EMPTY_BUS: Bus := Bus([], 0, {}, {}, 0, 0, false, [], {})

  datatype BusEvent =
    | Append(fields: Fields, reply: Reply)
    | ReadGroup(reply: Reply)
    | Process(reply: Reply)
    | Acknowledge(reply: Reply)
    | Crash

  function Range(lo: nat, hi: nat): (r: set<nat>)
    ensures forall i :: i in r <==> lo <= i < hi
  {
    if lo >= hi then {} else Range(lo, hi - 1) + {hi - 1}
  }

  lemma {:induction false} RangeSize(n: nat)
    ensures |Range(0, n)| == n
  {
    if n > 0 {
      RangeSize(n - 1);
      assert Range(0, n) == Range(0, n - 1) + {n - 1};
    }
  }

  function ReadUpTo(bus: Bus): nat {
    if |bus.stream| - bus.cursor <= READ_COUNT then |bus.stream| else bus.cursor + READ_COUNT
  }

  /** One step. A step the consumer's control flow does not allow leaves the bus as it is. */
  function Step(bus: Bus, event: BusEvent): Bus {
    match event
    case Append(fields, reply) =>
      if reply.Ran() then bus.(stream := bus.stream + [fields]) else bus
    case ReadGroup(reply) =>
      // XREADGROUP with ">": only entries never delivered before
      if bus.next < bus.cursor || bus.cursor >= |bus.stream| || !reply.Ran() then bus
      else
        var upTo := ReadUpTo(bus);
        bus.(cursor := upTo,
             pending := bus.pending + Range(bus.cursor, upTo),
             next := if reply.Raised() then upTo else bus.cursor)
    case Process(reply) =>
      if bus.next >= bus.cursor || bus.next >= |bus.stream| || bus.acking then bus
      else
        var tried := bus.(attempted := bus.attempted + [bus.next]);
        if !Invalidating(bus.stream[bus.next]) then tried.(acking := true)
        else
          var counted := if reply.Ran() then tried.(version := bus.version + 1, bumped := bus.bumped + {bus.next}) else tried;
          if reply.Raised() then counted.(next := bus.next + 1) else counted.(acking := true)
    case Acknowledge(reply) =>
      if !bus.acking then bus
      else
        var done := if reply.Ran() then bus.(pending := bus.pending - {bus.next}, acked := bus.acked + {bus.next}) else bus;
        done.(next := bus.next + 1, acking := false)
    case Crash =>
      bus.(next := bus.cursor, acking := false)
  }

  function Run(bus: Bus, events: seq<BusEvent>): Bus {
    Fold(Step, bus, events)
  }

  // ----- Conservation -----

  /** The first entry the consumer has not handled yet. */
  function Unhandled(bus: Bus): nat {
    if bus.acking then bus.next + 1 else bus.next
  }

  function InvalidatingBefore(stream: seq<Fields>, n: nat): set<nat>
    requires n <= |stream|
  {
    set i | 0 <= i < n && Invalidating(stream[i])
  }

  /** Delivered entries are pending or acknowledged, never both; the consumer's position is sane. */
  ghost predicate Partitioned(bus: Bus) {
    && bus.next <= bus.cursor <= |bus.stream|
    && (bus.acking ==> bus.next < bus.cursor)
    && bus.pending + bus.acked == Range(0, bus.cursor)
    && bus.pending !! bus.acked
    && (forall i :: i in bus.acked ==> i < bus.next)
  }

  /** Entries are handled in order, each once; the version counts exactly the bumps. */
  ghost predicate Counted(bus: Bus) {
    && bus.next <= bus.cursor <= |bus.stream|
    && (bus.acking ==> bus.next < bus.cursor)
    && (forall i, j :: 0 <= i < j < |bus.attempted| ==> bus.attempted[i] < bus.attempted[j])
    && (forall k :: 0 <= k < |bus.attempted| ==> bus.attempted[k] < Unhandled(bus))
    && bus.version == |bus.bumped|
    && (forall i :: i in bus.bumped ==> i < Unhandled(bus) && Invalidating(bus.stream[i]))
    && (forall i :: i in bus.acked && i < |bus.stream| && Invalidating(bus.stream[i]) ==> i in bus.bumped)
    && (bus.acking && Invalidating(bus.stream[bus.next]) ==> bus.next in bus.bumped)
  }

  ghost predicate Conserved(bus: Bus) {
    Partitioned(bus) && Counted(bus)
  }

  lemma StepKeepsPartition(bus: Bus, event: BusEvent)
    requires Partitioned(bus)
    ensures Partitioned(Step(bus, event))
  {
    var after := Step(bus, event);
    assert after.pending + after.acked == Range(0, after.cursor) by {
      assert Range(0, after.cursor) == Range(0, bus.cursor) + Range(bus.cursor, after.cursor);
      if bus.acking {
        assert bus.next in bus.pending + bus.acked;
      }
    }
    assert after.pending !! after.acked by {
      assert forall i :: i in bus.acked ==> i in bus.pending + bus.acked;
    }
  }

  lemma AppendKeepsCount(bus: Bus, event: BusEvent)
    requires Conserved(bus) && event.Append?
    ensures Counted(Step(bus, event))
  {
    var after := Step(bus, event);
    assert forall i :: 0 <= i < |bus.stream| ==> after.stream[i] == bus.stream[i];
    assert forall i :: i in bus.acked ==> i < |bus.stream|;
  }

  lemma ProcessKeepsCount(bus: Bus, event: BusEvent)
    requires Conserved(bus) && event.Process?
    ensures Counted(Step(bus, event))
  {
    var after := Step(bus, event);
    if after != bus {
      assert bus.next !in bus.bumped;
      assert after.attempted == bus.attempted + [bus.next];
      assert Unhandled(after) == bus.next + 1;
      assert forall k :: 0 <= k < |bus.attempted| ==> after.attempted[k] == bus.attempted[k] < bus.next;
    }
  }

  lemma ReadKeepsCount(bus: Bus, event: BusEvent)
    requires Conserved(bus) && event.ReadGroup?
    ensures Counted(Step(bus, event))
  {
    var after := Step(bus, event);
    assert after.stream == bus.stream && after.attempted == bus.attempted && after.bumped == bus.bumped;
    assert Unhandled(bus) <= Unhandled(after);
  }

  lemma OtherStepsKeepCount(bus: Bus, event: BusEvent)
    requires Conserved(bus) && (event.Acknowledge? || event.Crash?)
    ensures Counted(Step(bus, event))
  {
    var after := Step(bus, event);
    assert after.stream == bus.stream && after.attempted == bus.attempted && after.bumped == bus.bumped;
    assert Unhandled(bus) <= Unhandled(after);
  }

  lemma StepConserves(bus: Bus, event: BusEvent)
    requires Conserved(bus)
    ensures Conserved(Step(bus, event))
  {
    StepKeepsPartition(bus, event);
    match event
    case Append(_, _) => AppendKeepsCount(bus, event);
    case Process(_) => ProcessKeepsCount(bus, event);
    case ReadGroup(_) => ReadKeepsCount(bus, event);
    case _ => OtherStepsKeepCount(bus, event);
  }

  lemma {:induction false} RunConserves(events: seq<BusEvent>)
    ensures Conserved(Run(EMPTY_BUS, events))
  {
    if events != [] {
      RunConserves(events[..|events| - 1]);
      StepConserves(Run(EMPTY_BUS, events[..|events| - 1]), events[|events| - 1]);
    }
  }

  /** Over every run, with Redis faults and consumer crashes anywhere: each published entry is in
      exactly one of undelivered, pending and acknowledged; none is handled twice; and
      acknowledged <= version increase <= delivered <= published, counting invalidating entries. */
  lemma StreamConservation(events: seq<BusEvent>)
    ensures var bus := Run(EMPTY_BUS, events);
      && bus.cursor <= |bus.stream|
      && (forall i :: 0 <= i < |bus.stream| ==>
            (if i >= bus.cursor then i !in bus.pending && i !in bus.acked
             else i in bus.pending <==> i !in bus.acked))
      && (forall i, j :: 0 <= i < j < |bus.attempted| ==> bus.attempted[i] != bus.attempted[j])
      && |bus.acked * InvalidatingBefore(bus.stream, bus.cursor)| <= bus.version
      && bus.version <= |InvalidatingBefore(bus.stream, bus.cursor)|
      && |InvalidatingBefore(bus.stream, bus.cursor)| <= |InvalidatingBefore(bus.stream, |bus.stream|)|
  {
    RunConserves(events);
    var bus := Run(EMPTY_BUS, events);
    forall i ensures 0 <= i < bus.cursor <==> i in bus.pending + bus.acked {
      assert i in bus.pending + bus.acked <==> i in Range(0, bus.cursor);
    }
    var delivered := InvalidatingBefore(bus.stream, bus.cursor);
    SubsetSize(bus.acked * delivered, bus.bumped);
    SubsetSize(bus.bumped, delivered);
    SubsetSize(delivered, InvalidatingBefore(bus.stream, |bus.stream|));
  }

  // ----- What stays pending -----

  /** The consumer has left the entry behind. */
  ghost predicate LeftBehind(bus: Bus, i: nat) {
    i in bus.pending && i < bus.next
  }

  lemma StepKeepsLeftBehind(bus: Bus, event: BusEvent, i: nat)
    requires Conserved(bus) && LeftBehind(bus, i)
    ensures LeftBehind(Step(bus, event), i)
  {
  }

  lemma {:induction false} LeftBehindStays(bus: Bus, events: seq<BusEvent>, i: nat)
    requires Conserved(bus) && LeftBehind(bus, i)
    ensures Conserved(Run(bus, events)) && LeftBehind(Run(bus, events), i)
  {
    if events != [] {
      var (before, event) := (Run(bus, events[..|events| - 1]), events[|events| - 1]);
      LeftBehindStays(bus, events[..|events| - 1], i);
      StepConserves(before, event);
      StepKeepsLeftBehind(before, event, i);
    }
  }

  /** The consumer handles and acknowledges what it has in hand up to entry `i`. */
  lemma {:induction false} InHandCanBeAcked(bus: Bus, i: nat) returns (events: seq<BusEvent>)
    requires Conserved(bus) && bus.next <= i < bus.cursor
    ensures i in Run(bus, events).acked && i !in Run(bus, events).pending
    decreases i - bus.next, if bus.acking then 0 else 1
  {
    var event := if bus.acking then Acknowledge(Answered) else Process(Answered);
    var after := Step(bus, event);
    StepConserves(bus, event);
    if bus.acking && bus.next == i {
      events := [event];
      FoldOne(Step, bus, event);
    } else {
      var rest := InHandCanBeAcked(after, i);
      events := [event] + rest;
      FoldSplit(Step, bus, [event], rest);
      FoldOne(Step, bus, event);
    }
  }

  lemma DeliveredIsPendingOrAcked(bus: Bus, i: nat)
    requires Conserved(bus) && i < bus.cursor
    ensures i in bus.pending <==> i !in bus.acked
  {
    assert i in Range(0, bus.cursor);
    assert i in bus.pending + bus.acked;
  }

  /** A delivered entry stays pending for good exactly when it is pending and the consumer has moved past it:
      nothing reads the pending list again. */
  lemma StuckIffLeftBehind(bus: Bus, i: nat)
    requires Conserved(bus) && i < bus.cursor
    ensures (forall events: seq<BusEvent> :: i in Run(bus, events).pending) <==> LeftBehind(bus, i)
  {
    if LeftBehind(bus, i) {
      forall events: seq<BusEvent> ensures i in Run(bus, events).pending {
        LeftBehindStays(bus, events, i);
      }
    } else if i in bus.pending {
      var events := InHandCanBeAcked(bus, i);
      assert i !in Run(bus, events).pending;
    } else {
      assert Run(bus, []) == bus;
    }
  }

  /** One entry handled and acknowledged. */
  function Handled(bus: Bus, handling: Reply, ack: Reply): Bus {
    Step(Step(bus, Process(handling)), Acknowledge(ack))
  }

  /** Of an entry in hand: after its turn it is pending for good if and only if it is an invalidating one
      whose handling raised, or its acknowledgement did not run. */
  lemma StuckIffNotAcknowledged(bus: Bus, handling: Reply, ack: Reply)
    requires Conserved(bus) && bus.next < bus.cursor && !bus.acking
    ensures (forall events: seq<BusEvent> :: bus.next in Run(Handled(bus, handling, ack), events).pending)
       <==> (Invalidating(bus.stream[bus.next]) && handling.Raised()) || !ack.Ran()
  {
    var (i, after) := (bus.next, Handled(bus, handling, ack));
    StepConserves(bus, Process(handling));
    StepConserves(Step(bus, Process(handling)), Acknowledge(ack));
    DeliveredIsPendingOrAcked(bus, i);
    assert i < after.cursor && i < after.next;
    StuckIffLeftBehind(after, i);
  }

  // ----- Events on their way -----

  function CountInvalidating(entries: seq<Fields>): nat {
    if entries == [] then 0 else (if Invalidating(entries[0]) then 1 else 0) + CountInvalidating(entries[1..])
  }

  lemma {:induction false} CountInvalidatingSplit(xs: seq<Fields>, ys: seq<Fields>)
    ensures CountInvalidating(xs + ys) == CountInvalidating(xs) + CountInvalidating(ys)
  {
    if xs == [] {
      assert xs + ys == ys;
    } else {
      assert (xs + ys)[1..] == xs[1..] + ys;
      CountInvalidatingSplit(xs[1..], ys);
    }
  }

  /** Invalidating entries appended and not yet counted into the version. */
  function InFlight(bus: Bus): nat {
    if Unhandled(bus) > |bus.stream| then 0 else CountInvalidating(bus.stream[Unhandled(bus)..])
  }

  /** A step that loses nothing: no crash, no batch read and then dropped, no INCR that did not run,
      no append that did not run. A lost acknowledgement loses no invalidation. */
  predicate Lossless(event: BusEvent) {
    match event
    case Append(_, reply) => reply.Ran()
    case ReadGroup(reply) => !reply.AnswerLost?
    case Process(reply) => reply.Ran()
    case Acknowledge(_) => true
    case Crash => false
  }

  lemma AppendBalances(bus: Bus, event: BusEvent)
    requires Conserved(bus) && event.Append? && event.reply.Ran()
    ensures InFlight(Step(bus, event)) == InFlight(bus) + if Invalidating(event.fields) then 1 else 0
  {
    var k := Unhandled(bus);
    assert (bus.stream + [event.fields])[k..] == bus.stream[k..] + [event.fields];
    CountInvalidatingSplit(bus.stream[k..], [event.fields]);
  }

  lemma ProcessBalances(bus: Bus, event: BusEvent)
    requires Conserved(bus) && event.Process? && event.reply.Ran()
    ensures Step(bus, event).version + InFlight(Step(bus, event)) == bus.version + InFlight(bus)
  {
    if bus.next < bus.cursor && !bus.acking {
      var rest := bus.stream[bus.next..];
      assert rest[0] == bus.stream[bus.next] && rest[1..] == bus.stream[bus.next + 1..];
      assert Unhandled(Step(bus, event)) == bus.next + 1;
    }
  }

  /** Without loss, an invalidating entry is either counted in the version or still in flight. */
  lemma LosslessStepBalances(bus: Bus, event: BusEvent)
    requires Conserved(bus) && Lossless(event)
    ensures Conserved(Step(bus, event))
    ensures var after := Step(bus, event);
      after.version + InFlight(after) == bus.version + InFlight(bus)
        + if event.Append? && Invalidating(event.fields) then 1 else 0
  {
    StepConserves(bus, event);
    match event
    case Append(fields, _) => AppendBalances(bus, event);
    case Process(_) => ProcessBalances(bus, event);
    case _ =>
  }
}
