/** The consumer does its work: with every command answered it reads, counts and acknowledges all there is
    (matching-service/app/services/event_consumer.py). */
module ConsumerProgress {
  import opened Basics
  import opened EventBus
  import opened EventServices

  /** The replies of a turn in which every command is answered. */
  predicate AllAnswered(replies: seq<(Reply, Reply)>) {
    |replies| == READ_COUNT && forall i :: 0 <= i < |replies| ==> replies[i] == (Answered, Answered)
  }

  function Turns(replies: seq<(Reply, Reply)>, n: nat): seq<BusEvent> {
    if n == 0 then [] else Turns(replies, n - 1) + TurnEvents(Answered, replies)
  }

  predicate NothingInHand(bus: Bus) {
    bus.next == bus.cursor && !bus.acking
  }

  /** Between the two states, the entries `from` to `to` were counted and acknowledged. */
  ghost predicate Settled(bus: Bus, after: Bus, from: nat, to: nat) {
    && from <= to <= |bus.stream| && after.stream == bus.stream
    && after.version == bus.version + CountInvalidating(bus.stream[from..to])
    && after.acked == bus.acked + Range(from, to)
  }

  lemma RangeSplit(a: nat, b: nat, c: nat)
    requires a <= b <= c
    ensures Range(a, c) == Range(a, b) + Range(b, c)
  {
  }

  lemma SliceSplit<T>(xs: seq<T>, a: nat, b: nat, c: nat)
    requires a <= b <= c <= |xs|
    ensures xs[a..c] == xs[a..b] + xs[b..c]
  {
  }

  lemma SettledTwice(bus: Bus, middle: Bus, after: Bus, a: nat, b: nat, c: nat)
    requires Settled(bus, middle, a, b) && Settled(middle, after, b, c)
    ensures Settled(bus, after, a, c)
  {
    SliceSplit(bus.stream, a, b, c);
    CountInvalidatingSplit(bus.stream[a..b], bus.stream[b..c]);
    RangeSplit(a, b, c);
  }

  /** From `bus` the consumer has finished `n` entries in hand, one after another. */
  ghost predicate Finished(bus: Bus, after: Bus, n: nat) {
    && Settled(bus, after, bus.next, bus.next + n) && !after.acking && after.next == bus.next + n
    && after.cursor == bus.cursor && after.pending == bus.pending - Range(bus.next, bus.next + n)
  }

  lemma AnsweredHandling(bus: Bus)
    requires Conserved(bus) && !bus.acking && bus.next < bus.cursor
    ensures var handled := Step(bus, Process(Answered));
      && Conserved(handled) && handled.acking && handled.next == bus.next
      && handled.stream == bus.stream && handled.cursor == bus.cursor
      && handled.pending == bus.pending && handled.acked == bus.acked
      && handled.version == bus.version + if Invalidating(bus.stream[bus.next]) then 1 else 0
  {
    StepConserves(bus, Process(Answered));
  }

  lemma AnsweredAcknowledgement(bus: Bus)
    requires Conserved(bus) && bus.acking
    ensures var done := Step(bus, Acknowledge(Answered));
      && Conserved(done)
      && done == bus.(pending := bus.pending - {bus.next}, acked := bus.acked + {bus.next}, next := bus.next + 1, acking := false)
  {
    StepConserves(bus, Acknowledge(Answered));
  }

  lemma OneFinished(bus: Bus, handled: Bus, after: Bus)
    requires bus.next < |bus.stream| && handled.next == bus.next
    requires handled.stream == bus.stream && handled.cursor == bus.cursor
    requires handled.pending == bus.pending && handled.acked == bus.acked
    requires handled.version == bus.version + if Invalidating(bus.stream[bus.next]) then 1 else 0
    requires after == handled.(pending := handled.pending - {bus.next}, acked := handled.acked + {bus.next}, next := bus.next + 1, acking := false)
    ensures Finished(bus, after, 1)
  {
    var i := bus.next;
    assert bus.stream[i..i + 1] == [bus.stream[i]] && [bus.stream[i]][1..] == [];
    assert Range(i, i + 1) == {i};
  }

  lemma OneAnswered(bus: Bus)
    requires Conserved(bus) && !bus.acking && bus.next < bus.cursor
    ensures var after := Step(Step(bus, Process(Answered)), Acknowledge(Answered));
      Conserved(after) && Finished(bus, after, 1)
  {
    var handled := Step(bus, Process(Answered));
    AnsweredHandling(bus);
    AnsweredAcknowledgement(handled);
    OneFinished(bus, handled, Step(handled, Acknowledge(Answered)));
  }

  lemma FinishedTwice(bus: Bus, middle: Bus, after: Bus, m: nat, n: nat)
    requires Finished(bus, middle, m) && Finished(middle, after, n)
    ensures Finished(bus, after, m + n)
  {
    SettledTwice(bus, middle, after, bus.next, bus.next + m, bus.next + m + n);
    RangeSplit(bus.next, bus.next + m, bus.next + m + n);
  }

  lemma {:induction false} BatchIsFinished(bus: Bus, replies: seq<(Reply, Reply)>, n: nat)
    requires AllAnswered(replies) && n <= |replies|
    requires Conserved(bus) && !bus.acking && bus.next + n <= bus.cursor
    ensures var after := Run(bus, HandleEvents(replies[..n]));
      Conserved(after) && Finished(bus, after, n)
  {
    if n == 0 {
      assert bus.stream[bus.next..bus.next] == [];
      assert Range(bus.next, bus.next) == {};
    } else {
      BatchIsFinished(bus, replies, n - 1);
      var before := Run(bus, HandleEvents(replies[..n - 1]));
      OneAnswered(before);
      HandleNext(bus, replies, n - 1, before, Step(Step(before, Process(Answered)), Acknowledge(Answered)));
      FinishedTwice(bus, before, Step(Step(before, Process(Answered)), Acknowledge(Answered)), n - 1, 1);
    }
  }

  /** What an answered turn has done: it delivered the `taken` oldest undelivered entries, counted each
      invalidating one among them, and acknowledged all; nothing else changed. */
  ghost predicate Delivered(bus: Bus, after: Bus, taken: nat) {
    && Settled(bus, after, bus.cursor, bus.cursor + taken) && NothingInHand(after)
    && after.cursor == bus.cursor + taken && after.pending == bus.pending
  }

  lemma PendingAreOld(bus: Bus, taken: nat)
    requires Conserved(bus)
    ensures bus.pending !! Range(bus.cursor, bus.cursor + taken)
  {
    forall i | i in bus.pending ensures i < bus.cursor {
      assert i in Range(0, bus.cursor);
    }
  }

  /** As many as wait, and no more than that. */
  function Waiting(bus: Bus, most: nat): nat
    requires bus.cursor <= |bus.stream|
  {
    if |bus.stream| - bus.cursor <= most then |bus.stream| - bus.cursor else most
  }

  lemma ReadDelivers(bus: Bus, taken: nat)
    requires NothingInHand(bus) && bus.cursor <= |bus.stream| && taken == Waiting(bus, 10) > 0
    ensures Step(bus, ReadGroup(Answered))
         == bus.(cursor := bus.cursor + taken, pending := bus.pending + Range(bus.cursor, bus.cursor + taken))
  {
  }

  lemma AnsweredRead(bus: Bus, taken: nat)
    requires Conserved(bus) && NothingInHand(bus) && taken == Waiting(bus, 10)
    ensures var read := Step(bus, ReadGroup(Answered));
      Conserved(read) && read == bus.(cursor := bus.cursor + taken, pending := bus.pending + Range(bus.cursor, bus.cursor + taken))
  {
    StepConserves(bus, ReadGroup(Answered));
    if taken == 0 {
      assert Range(bus.cursor, bus.cursor) == {};
      assert Step(bus, ReadGroup(Answered)) == bus;
    } else {
      ReadDelivers(bus, taken);
    }
  }

  lemma TurnIsReadAndHandle(bus: Bus, replies: seq<(Reply, Reply)>)
    ensures Run(bus, TurnEvents(Answered, replies)) == Run(Step(bus, ReadGroup(Answered)), HandleEvents(replies))
  {
    FoldSplit(Step, bus, [ReadGroup(Answered)], HandleEvents(replies));
    FoldOne(Step, bus, ReadGroup(Answered));
  }

  lemma BatchIsAll(read: Bus, replies: seq<(Reply, Reply)>, taken: nat)
    requires AllAnswered(replies) && taken <= |replies|
    requires Conserved(read) && !read.acking && read.next + taken == read.cursor
    ensures var after := Run(read, HandleEvents(replies));
      Conserved(after) && Finished(read, after, taken)
  {
    BatchIsFinished(read, replies, taken);
    HandleTaken(read, Run(read, HandleEvents(replies[..taken])), replies, taken);
  }

  lemma AddedAndTaken<T>(kept: set<T>, passing: set<T>)
    requires kept !! passing
    ensures kept + passing - passing == kept
  {
  }

  lemma FinishedIsDelivered(bus: Bus, read: Bus, after: Bus, taken: nat)
    requires NothingInHand(bus) && Finished(read, after, taken) && bus.pending !! Range(bus.cursor, bus.cursor + taken)
    requires read == bus.(cursor := bus.cursor + taken, pending := bus.pending + Range(bus.cursor, bus.cursor + taken))
    ensures Delivered(bus, after, taken)
  {
    AddedAndTaken(bus.pending, Range(bus.cursor, bus.cursor + taken));
    assert Settled(bus, after, bus.cursor, bus.cursor + taken);
  }

  /** An answered turn delivers the ten oldest undelivered entries, or all of them if they are fewer, counts
      and acknowledges them. */
  lemma AnsweredTurnDelivers(bus: Bus, replies: seq<(Reply, Reply)>)
    requires AllAnswered(replies) && Conserved(bus) && NothingInHand(bus)
    ensures var after := Run(bus, TurnEvents(Answered, replies));
      Conserved(after) && Delivered(bus, after, Waiting(bus, 10))
  {
    var taken := Waiting(bus, 10);
    var read := Step(bus, ReadGroup(Answered));
    AnsweredRead(bus, taken);
    TurnIsReadAndHandle(bus, replies);
    BatchIsAll(read, replies, taken);
    PendingAreOld(bus, taken);
    FinishedIsDelivered(bus, read, Run(read, HandleEvents(replies)), taken);
  }

  lemma DeliveredTwice(bus: Bus, middle: Bus, after: Bus, first: nat, second: nat)
    requires Delivered(bus, middle, first) && Delivered(middle, after, second)
    ensures Delivered(bus, after, first + second)
  {
    SettledTwice(bus, middle, after, bus.cursor, bus.cursor + first, bus.cursor + first + second);
  }

  lemma WaitingAdds(bus: Bus, middle: Bus, n: nat)
    requires Conserved(bus) && n > 0 && Delivered(bus, middle, Waiting(bus, 10 * (n - 1)))
    ensures Waiting(bus, 10 * (n - 1)) + Waiting(middle, 10) == Waiting(bus, 10 * n)
  {
  }

  lemma LastTurn(bus: Bus, replies: seq<(Reply, Reply)>, n: nat)
    requires n > 0
    ensures Run(bus, Turns(replies, n)) == Run(Run(bus, Turns(replies, n - 1)), TurnEvents(Answered, replies))
  {
    FoldSplit(Step, bus, Turns(replies, n - 1), TurnEvents(Answered, replies));
  }

  /** After answered turns: nothing is lost, and as many as waited, up to that many, are delivered. */
  ghost predicate CaughtUp(bus: Bus, after: Bus, most: nat)
    requires bus.cursor <= |bus.stream|
  {
    Conserved(after) && Delivered(bus, after, Waiting(bus, most))
  }

  lemma OneMoreTurn(bus: Bus, middle: Bus, replies: seq<(Reply, Reply)>, n: nat)
    requires AllAnswered(replies) && Conserved(bus) && n > 0 && CaughtUp(bus, middle, 10 * (n - 1))
    ensures CaughtUp(bus, Run(middle, TurnEvents(Answered, replies)), 10 * n)
  {
    AnsweredTurnDelivers(middle, replies);
    DeliveredTwice(bus, middle, Run(middle, TurnEvents(Answered, replies)), Waiting(bus, 10 * (n - 1)), Waiting(middle, 10));
    WaitingAdds(bus, middle, n);
  }

  lemma NoTurns(bus: Bus)
    requires Conserved(bus) && NothingInHand(bus)
    ensures CaughtUp(bus, bus, 0)
  {
    assert bus.stream[bus.cursor..bus.cursor] == [] && Range(bus.cursor, bus.cursor) == {};
  }

  /** `n` answered turns deliver ten entries each, while there are any. */
  lemma {:induction false} AnsweredTurnsDeliver(bus: Bus, replies: seq<(Reply, Reply)>, n: nat)
    requires AllAnswered(replies) && Conserved(bus) && NothingInHand(bus)
    ensures CaughtUp(bus, Run(bus, Turns(replies, n)), 10 * n)
  {
    if n == 0 {
      NoTurns(bus);
    } else {
      AnsweredTurnsDeliver(bus, replies, n - 1);
      OneMoreTurn(bus, Run(bus, Turns(replies, n - 1)), replies, n);
      LastTurn(bus, replies, n);
    }
  }

  /** Enough answered turns catch up: everything is delivered and acknowledged, nothing is in flight, and the
      version has grown by exactly the invalidating entries that were waiting. */
  lemma EnoughTurnsCatchUp(bus: Bus, replies: seq<(Reply, Reply)>, n: nat)
    requires AllAnswered(replies) && Conserved(bus) && NothingInHand(bus) && |bus.stream| - bus.cursor <= 10 * n
    ensures var after := Run(bus, Turns(replies, n));
      && after.stream == bus.stream && after.cursor == |bus.stream| && InFlight(after) == 0
      && after.version == bus.version + CountInvalidating(bus.stream[bus.cursor..])
      && after.acked == bus.acked + Range(bus.cursor, |bus.stream|) && after.pending == bus.pending
  {
    AnsweredTurnsDeliver(bus, replies, n);
    assert bus.stream[bus.cursor..|bus.stream|] == bus.stream[bus.cursor..];
    assert bus.stream[|bus.stream|..] == [];
  }

  // ----- From any state -----

  /** Steps of a consumer that publish nothing and lose nothing. */
  predicate Draining(event: BusEvent) {
    Lossless(event) && !event.Append?
  }

  /** Wherever the consumer stands, it can count everything that is in flight. */
  lemma {:induction false} CanDrain(bus: Bus) returns (events: seq<BusEvent>)
    requires Conserved(bus)
    ensures forall e :: e in events ==> Draining(e)
    ensures Conserved(Run(bus, events)) && InFlight(Run(bus, events)) == 0
    ensures Run(bus, events).version == bus.version + InFlight(bus)
    decreases |bus.stream| - bus.next, |bus.stream| - bus.cursor, if bus.acking then 0 else 1
  {
    if !bus.acking && bus.next == |bus.stream| {
      events := [];
      assert bus.stream[|bus.stream|..] == [];
    } else {
      var event := if bus.acking then Acknowledge(Answered) else if bus.next < bus.cursor then Process(Answered) else ReadGroup(Answered);
      LosslessStepBalances(bus, event);
      var rest := CanDrain(Step(bus, event));
      events := [event] + rest;
      FoldSplit(Step, bus, [event], rest);
      FoldOne(Step, bus, event);
    }
  }
}
