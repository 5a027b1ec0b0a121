/** The code on both ends of the stream, in its imperative form, proved against the steps of the bus. */
module EventServices {
  import opened Basics
  import opened EventBus

  /** The keys of the bus that live in Redis, and the history the proofs speak of. */
  class RedisBus {
    var stream: seq<Fields>
    var cursor: nat
    var pending: set<nat>
    var acked: set<nat>
    var version: nat
    ghost var attempted: seq<nat>
    ghost var bumped: set<nat>

    constructor ()
      ensures View(0) == EMPTY_BUS
    {
      stream, cursor, pending, acked, version := [], 0, {}, {}, 0;
      attempted, bumped := [], {};
    }

    /** The bus while the consumer stands before entry `next`. */
    ghost function View(next: nat): Bus
      reads this
    {
      Bus(stream, cursor, pending, acked, version, next, false, attempted, bumped)
    }
  }

  class EventPublisherService {
    const redis: RedisBus

    constructor (redis: RedisBus)
      ensures this.redis == redis
    {
      this.redis := redis;
    }

    /** Never raises: a fault costs the event and nothing else. */
    method Publish(eventType: string, payload: seq<(string, string)>, reply: Reply)
      modifies redis
      ensures forall next: nat ::
        redis.View(next) == Step(old(redis.View(next)), Append(EventFields(eventType, payload), reply))
    {
      var fields := ["type", eventType];
      for i := 0 to |payload|
        invariant fields == EventFields(eventType, payload[..i])
      {
        var (key, value) := payload[i];
        assert payload[..i + 1][..i] == payload[..i];
        fields := fields + [key, value];
      }
      assert payload[..|payload|] == payload;
      if reply.Ran() {
        redis.stream := redis.stream + [fields];
      }
    }
  }

  /** The steps of one turn of the consumer loop: one read, then handle and acknowledge each entry. */
  function HandleEvents(replies: seq<(Reply, Reply)>): seq<BusEvent> {
    if replies == [] then []
    else
      var (handling, ack) := replies[|replies| - 1];
      HandleEvents(replies[..|replies| - 1]) + [Process(handling), Acknowledge(ack)]
  }

  function TurnEvents(read: Reply, replies: seq<(Reply, Reply)>): seq<BusEvent> {
    [ReadGroup(read)] + HandleEvents(replies)
  }

  lemma HandleOne(bus: Bus, replies: seq<(Reply, Reply)>, last: (Reply, Reply))
    ensures Run(bus, HandleEvents(replies + [last]))
         == Step(Step(Run(bus, HandleEvents(replies)), Process(last.0)), Acknowledge(last.1))
  {
    assert (replies + [last])[..|replies|] == replies;
    var bus' := Run(bus, HandleEvents(replies));
    var two := [Process(last.0), Acknowledge(last.1)];
    FoldSplit(Step, bus, HandleEvents(replies), two);
    FoldOne(Step, bus', Process(last.0));
    assert two[..1] == [Process(last.0)];
  }

  lemma HandleNext(start: Bus, replies: seq<(Reply, Reply)>, i: nat, before: Bus, after: Bus)
    requires i < |replies| && before == Run(start, HandleEvents(replies[..i]))
    requires after == Step(Step(before, Process(replies[i].0)), Acknowledge(replies[i].1))
    ensures after == Run(start, HandleEvents(replies[..i + 1]))
  {
    HandleOne(start, replies[..i], replies[i]);
    assert replies[..i + 1] == replies[..i] + [replies[i]];
  }

  /** Past the batch, the remaining replies of the turn are never asked for. */
  lemma {:induction false} NothingLeftToHandle(bus: Bus, replies: seq<(Reply, Reply)>)
    requires bus.next >= bus.cursor && !bus.acking
    ensures Run(bus, HandleEvents(replies)) == bus
  {
    if replies != [] {
      var n := |replies| - 1;
      NothingLeftToHandle(bus, replies[..n]);
      assert replies == replies[..n] + [replies[n]];
      HandleOne(bus, replies[..n], replies[n]);
    }
  }

  lemma HandleSame(a: Bus, first: seq<(Reply, Reply)>, b: Bus, second: seq<(Reply, Reply)>, last: (Reply, Reply))
    requires Run(a, HandleEvents(first)) == Run(b, HandleEvents(second))
    ensures Run(a, HandleEvents(first + [last])) == Run(b, HandleEvents(second + [last]))
  {
    HandleOne(a, first, last);
    HandleOne(b, second, last);
  }

  lemma {:induction false} HandleSplit(bus: Bus, first: seq<(Reply, Reply)>, second: seq<(Reply, Reply)>)
    ensures Run(bus, HandleEvents(first + second)) == Run(Run(bus, HandleEvents(first)), HandleEvents(second))
  {
    if second == [] {
      assert first + second == first;
    } else {
      var n := |second| - 1;
      HandleSplit(bus, first, second[..n]);
      assert first + second == (first + second[..n]) + [second[n]];
      assert second == second[..n] + [second[n]];
      HandleSame(bus, first + second[..n], Run(bus, HandleEvents(first)), second[..n], second[n]);
    }
  }

  /** The replies of a batch are the whole turn's. */
  lemma HandleTaken(start: Bus, end: Bus, replies: seq<(Reply, Reply)>, taken: nat)
    requires taken <= |replies| && end == Run(start, HandleEvents(replies[..taken]))
    requires end.next >= end.cursor && !end.acking
    ensures end == Run(start, HandleEvents(replies))
  {
    HandleSplit(start, replies[..taken], replies[taken..]);
    NothingLeftToHandle(end, replies[taken..]);
    assert replies[..taken] + replies[taken..] == replies;
  }

  class EventConsumer {
    const redis: RedisBus

    constructor (redis: RedisBus)
      ensures this.redis == redis
    {
      this.redis := redis;
    }

    /** Bumps the version for an invalidating type, ignores any other; says whether it raised. */
    method ProcessEvent(id: nat, fields: Fields, reply: Reply) returns (raised: bool)
      requires id < |redis.stream| && redis.stream[id] == fields && id < redis.cursor
      modifies redis`version, redis`attempted, redis`bumped
      ensures raised == (Invalidating(fields) && reply.Raised())
      ensures redis.View(id).(next := if raised then id + 1 else id, acking := !raised)
           == Step(old(redis.View(id)), Process(reply))
    {
      redis.attempted := redis.attempted + [id];
      var eventType := TypeOf(fields);
      if eventType.Some? && eventType.value in INVALIDATING {
        if reply.Ran() {
          redis.version := redis.version + 1;
          redis.bumped := redis.bumped + {id};
        }
        raised := reply.Raised();
      } else {
        raised := false;
      }
    }

    /** The entries of one batch, in order: handle, then acknowledge unless handling raised. */
    method HandleBatch(first: nat, replies: seq<(Reply, Reply)>)
      requires first <= redis.cursor <= |redis.stream|
      requires redis.cursor - first <= |replies|
      modifies redis`version, redis`pending, redis`acked, redis`attempted, redis`bumped
      ensures redis.View(redis.cursor)
           == Run(old(redis.View(first)), HandleEvents(replies[..redis.cursor - first]))
    {
      ghost var start := redis.View(first);
      for i := 0 to redis.cursor - first
        invariant redis.View(first + i) == Run(start, HandleEvents(replies[..i]))
      {
        HandleNth(first + i, replies, i, start);
      }
    }

    method HandleNth(id: nat, replies: seq<(Reply, Reply)>, i: nat, ghost start: Bus)
      requires id < redis.cursor <= |redis.stream| && i < |replies|
      requires redis.View(id) == Run(start, HandleEvents(replies[..i]))
      modifies redis`version, redis`pending, redis`acked, redis`attempted, redis`bumped
      ensures redis.View(id + 1) == Run(start, HandleEvents(replies[..i + 1]))
    {
      ghost var before := redis.View(id);
      HandleEntry(id, replies[i].0, replies[i].1);
      HandleNext(start, replies, i, before, redis.View(id + 1));
    }

    method HandleEntry(id: nat, handling: Reply, ack: Reply)
      requires id < redis.cursor <= |redis.stream|
      modifies redis`version, redis`pending, redis`acked, redis`attempted, redis`bumped
      ensures redis.View(id + 1) == Step(Step(old(redis.View(id)), Process(handling)), Acknowledge(ack))
    {
      var raised := ProcessEvent(id, redis.stream[id], handling);
      if !raised && ack.Ran() {
        redis.pending := redis.pending - {id};
        redis.acked := redis.acked + {id};
      }
    }

    /** One turn of `consume_loop`, from a consumer with nothing in hand back to one. */
    method ConsumeTurn(read: Reply, replies: seq<(Reply, Reply)>)
      requires |replies| == READ_COUNT
      requires redis.cursor <= |redis.stream|
      modifies redis
      ensures redis.cursor <= |redis.stream|
      ensures redis.View(redis.cursor) == Run(old(redis.View(redis.cursor)), TurnEvents(read, replies))
    {
      ghost var start := redis.View(redis.cursor);
      FoldSplit(Step, start, [ReadGroup(read)], HandleEvents(replies));
      FoldOne(Step, start, ReadGroup(read));
      var first := ReadNew(read);
      ghost var afterRead := redis.View(first);
      HandleBatch(first, replies);
      HandleTaken(afterRead, redis.View(redis.cursor), replies, redis.cursor - first);
    }

    /** XREADGROUP with `>`: at most ten entries never read before, which become pending. When it raises, the
        turn has nothing to handle, whatever was delivered. */
    method ReadNew(read: Reply) returns (first: nat)
      requires redis.cursor <= |redis.stream|
      modifies redis`cursor, redis`pending
      ensures first <= redis.cursor <= |redis.stream| && redis.cursor - first <= READ_COUNT
      ensures redis.View(first) == Step(old(redis.View(redis.cursor)), ReadGroup(read))
    {
      first := redis.cursor;
      if read.Ran() && first < |redis.stream| {
        var upTo := if |redis.stream| - first <= READ_COUNT then |redis.stream| else first + READ_COUNT;
        redis.cursor := upTo;
        redis.pending := redis.pending + Range(first, upTo);
      }
      if read.Raised() {
        first := redis.cursor;
      }
    }
  }
}
