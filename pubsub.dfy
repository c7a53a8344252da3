/**
 * The Google Cloud Pub/Sub processor of internal/processor: its defaults,
 * the message built for each event, and the processor object that starts
 * its sources, drains the shared event buffer into the topic and stops
 * everything in order. Effects on the sources, the topic and the client are
 * recorded, in order, in a trace of actions.
 */
module PubSub {
  import opened Wrappers
  import opened Types
  import Text
  import Channels

  datatype PubSubConfig = PubSubConfig(
    projectId: string,
    topicName: string,
    bufferSize: int,
    batchSize: int,
    batchBytes: int,
    batchTimeout: int)

  /** DefaultPubSubConfig: no project or topic, a buffer of 1000 events, batches of 100 messages or 1 MB or 100 ms. */
  function DefaultPubSubConfig(): (c: PubSubConfig)
    ensures c.projectId == "" && c.topicName == ""
    ensures c.bufferSize == 1000 && c.batchSize == 100
    ensures c.batchBytes == 1000000 && c.batchTimeout == 100 * Millisecond
  {
    PubSubConfig("", "", 1000, 100, 1000000, 100 * Millisecond)
  }

  /** The body and attributes of one Pub/Sub message. */
  datatype Message = Message(data: Bytes, attributes: map<string, string>)

  /** The attributes of the message published for e: exactly its type, source and id. */
  function MessageAttributes(e: Event): (m: map<string, string>)
    ensures m.Keys == {"type", "source", "id"}
    ensures m["type"] == e.eventType && m["source"] == e.source && m["id"] == e.id
  {
    map["type" := e.eventType, "source" := e.source, "id" := e.id]
  }

  /** What publishEvent did with one event. */
  datatype PublishOutcome =
    | MarshalFailed(event: Event)
    | PublishFailed(event: Event, msg: Message)
    | Published(event: Event, msg: Message)

  /**
   * publishEvent: marshal the event (encode; None when json.Marshal fails),
   * publish the message, and wait for the result (getOk: whether result.Get
   * returned a message ID).
   */
  function PublishEvent(e: Event, encode: Event -> Option<Bytes>, getOk: bool): (r: PublishOutcome)
    ensures r.event == e
    ensures r.MarshalFailed? <==> encode(e).None?
    ensures r.Published? <==> encode(e).Some? && getOk
    ensures !r.MarshalFailed? ==> r.msg == Message(encode(e).value, MessageAttributes(e))
  {
    match encode(e)
    case None => MarshalFailed(e)
    case Some(data) =>
      var msg := Message(data, MessageAttributes(e));
      if getOk then Published(e, msg) else PublishFailed(e, msg)
  }

  /** A registered source as the processor sees it: its name and whether its Start and Stop fail. */
  datatype DataSource = DataSource(name: string, startFails: bool, stopFails: bool)

  /** Start's error: "failed to start source <name>: ...". */
  datatype StartError = StartError(source: string)

  /** Everything the processor does to the outside world, in order. */
  datatype Action =
    | StartSource(name: string, ok: bool)
    | LaunchLoop
    | Attempt(outcome: PublishOutcome)
    | StopSource(name: string, ok: bool)
    | CloseChannel
    | StopTopic
    | CloseClient

  /** The index of the first source whose Start fails, |ss| when none does. */
  function FirstStartFailure(ss: seq<DataSource>): (k: nat)
    ensures k <= |ss|
    ensures forall i :: 0 <= i < k ==> !ss[i].startFails
    ensures k < |ss| ==> ss[k].startFails
  {
    if ss == [] || ss[0].startFails then 0 else 1 + FirstStartFailure(ss[1..])
  }

  /** The Start calls on ss, in order. */
  function StartCalls(ss: seq<DataSource>): (r: seq<Action>)
    ensures |r| == |ss|
  {
    if ss == [] then [] else [StartSource(ss[0].name, !ss[0].startFails)] + StartCalls(ss[1..])
  }

  /** The Stop calls on ss, in order. */
  function StopCalls(ss: seq<DataSource>): (r: seq<Action>)
    ensures |r| == |ss|
  {
    if ss == [] then [] else [StopSource(ss[0].name, !ss[0].stopFails)] + StopCalls(ss[1..])
  }

  /** One publish attempt per event, in FIFO order; results[i] is whether the i-th attempt's Get succeeds. */
  function Attempts(events: seq<Event>, encode: Event -> Option<Bytes>, results: seq<bool>): (r: seq<Action>)
    requires |results| >= |events|
    ensures |r| == |events|
  {
    if events == [] then []
    else [Attempt(PublishEvent(events[0], encode, results[0]))] + Attempts(events[1..], encode, results[1..])
  }

  /** The Start trace: the sources up to and including the failing one, then the loop launch if none failed. */
  function StartTrace(ss: seq<DataSource>): (r: seq<Action>)
    ensures |r| == FirstStartFailure(ss) + 1
    ensures (r[|r| - 1] == LaunchLoop) <==> FirstStartFailure(ss) == |ss|
  {
    var k := FirstStartFailure(ss);
    if k < |ss| then StartCallsAt(ss[..k + 1]); StartCalls(ss[..k + 1]) else StartCalls(ss) + [LaunchLoop]
  }

  /** The Stop trace: every source, the close, the drain of what is left if a loop runs, the topic, the client. */
  function StopTrace(ss: seq<DataSource>, drained: seq<Action>): (r: seq<Action>)
    ensures |r| == |ss| + 1 + |drained| + 2
    ensures r[|ss|] == CloseChannel && r[|r| - 2] == StopTopic && r[|r| - 1] == CloseClient
  {
    StopCalls(ss) + [CloseChannel] + drained + [StopTopic, CloseClient]
  }

  class PubSubProcessor {
    const config: PubSubConfig
    const eventChan: Channels.Channel<Event>
    var sources: seq<DataSource>
    /** How many processEvents loops Start has launched. */
    var loops: nat
    var trace: seq<Action>

    ghost predicate Valid()
      reads this, eventChan
    {
      eventChan.Valid() && eventChan.capacity == config.bufferSize
    }

    /** NewPubSubProcessor, past the client and topic set-up: an empty buffer of BufferSize events. */
    constructor (config: PubSubConfig)
      requires config.bufferSize >= 0
      ensures Valid() && fresh(eventChan)
      ensures this.config == config && eventChan.buf == [] && !eventChan.closed
      ensures sources == [] && loops == 0 && trace == []
    {
      this.config := config;
      eventChan := new Channels.Channel<Event>(config.bufferSize);
      sources := [];
      loops := 0;
      trace := [];
    }

    /** Name: "pubsub-" followed by the topic name, which it determines. */
    function Name(): (n: string)
      ensures Text.HasPrefix(n, "pubsub-") && Text.TrimPrefix(n, "pubsub-") == config.topicName
    {
      Text.TrimPrefixOfConcat("pubsub-", config.topicName);
      "pubsub-" + config.topicName
    }

    /** RegisterSource: appends, so sources are kept in registration order. */
    method RegisterSource(s: DataSource)
      modifies this
      ensures sources == old(sources) + [s]
      ensures loops == old(loops) && trace == old(trace)
    {
      sources := sources + [s];
    }

    /**
     * Start: starts the sources in registration order and returns the first
     * failure, naming that source; only when all started is the loop launched.
     */
    method Start() returns (err: Option<StartError>)
      modifies this
      ensures sources == old(sources)
      ensures trace == old(trace) + StartTrace(sources)
      ensures var k := FirstStartFailure(sources);
        && (k < |sources| ==> err == Some(StartError(sources[k].name)) && loops == old(loops))
        && (k == |sources| ==> err == None && loops == old(loops) + 1)
    {
      var i := 0;
      while i < |sources|
        invariant i <= |sources|
        invariant forall j :: 0 <= j < i ==> !sources[j].startFails
        invariant trace == old(trace) + StartCalls(sources[..i])
        invariant sources == old(sources) && loops == old(loops)
      {
        var s := sources[i];
        StartCallsSnoc(sources, i);
        trace := trace + [StartSource(s.name, !s.startFails)];
        if s.startFails {
          FailureAt(sources, i);
          return Some(StartError(s.name));
        }
        i := i + 1;
      }
      FailureAt(sources, i);
      loops := loops + 1;
      trace := trace + [LaunchLoop];
      err := None;
    }

    /**
     * processEvents, run until it would block: each buffered event is taken
     * oldest first and attempted once, a failure only logged; the loop has
     * ended exactly when the channel was closed and it drained it.
     */
    method ProcessEvents(encode: Event -> Option<Bytes>, results: seq<bool>) returns (ended: bool)
      requires Valid() && loops > 0 && |results| >= |eventChan.buf|
      modifies this, eventChan
      ensures Valid() && eventChan.buf == [] && eventChan.closed == old(eventChan.closed)
      ensures ended == eventChan.closed
      ensures trace == old(trace) + Attempts(old(eventChan.buf), encode, results)
      ensures sources == old(sources) && loops == old(loops)
    {
      ghost var pending := eventChan.buf;
      var i := 0;
      while true
        invariant Valid() && i <= |pending| && eventChan.buf == pending[i..]
        invariant eventChan.closed == old(eventChan.closed)
        invariant trace + Attempts(pending[i..], encode, results[i..]) == old(trace) + Attempts(pending, encode, results)
        invariant sources == old(sources) && loops == old(loops)
        decreases |eventChan.buf|
      {
        if eventChan.buf == [] && !eventChan.closed {
          return false;
        }
        var event := eventChan.Receive();
        if event.None? {
          return true;
        }
        assert pending[i..][1..] == pending[i + 1..];
        var outcome := PublishEvent(event.value, encode, results[i]);
        trace := trace + [Attempt(outcome)];
        i := i + 1;
      }
    }

    /** Stop's first loop: every registered source is stopped in order; a failure is logged and passed over. */
    method StopSources()
      requires Valid()
      modifies this
      ensures Valid() && trace == old(trace) + StopCalls(sources)
      ensures sources == old(sources) && loops == old(loops)
    {
      var i := 0;
      while i < |sources|
        invariant i <= |sources| && Valid()
        invariant trace == old(trace) + StopCalls(sources[..i])
        invariant sources == old(sources) && loops == old(loops)
      {
        var s := sources[i];
        assert sources[..i + 1] == sources[..i] + [s];
        StopCallsConcat(sources[..i], [s]);
        trace := trace + [StopSource(s.name, !s.stopFails)];
        i := i + 1;
      }
      assert sources[..i] == sources;
    }

    /**
     * Stop: stops every source, logging and passing over failures, closes the
     * channel, waits for the running loop to publish what is left, then stops
     * the topic and closes the client.
     */
    method Stop(encode: Event -> Option<Bytes>, results: seq<bool>)
      requires Valid() && !eventChan.closed && |results| >= |eventChan.buf|
      modifies this, eventChan
      ensures Valid() && eventChan.closed
      ensures var drained := if old(loops) > 0 then Attempts(old(eventChan.buf), encode, results) else [];
        trace == old(trace) + StopTrace(sources, drained)
      ensures old(loops) > 0 ==> eventChan.buf == []
      ensures old(loops) == 0 ==> eventChan.buf == old(eventChan.buf)
      ensures sources == old(sources) && loops == 0
    {
      StopSources();
      eventChan.Close();
      trace := trace + [CloseChannel];
      if loops > 0 {
        var ended := ProcessEvents(encode, results);
      }
      loops := 0;
      trace := trace + [StopTopic, CloseClient];
    }
  }

  /** The i-th Start call is on the i-th source. */
  lemma {:induction false} StartCallsAt(ss: seq<DataSource>)
    ensures forall i :: 0 <= i < |ss| ==> StartCalls(ss)[i] == StartSource(ss[i].name, !ss[i].startFails)
  {
    if ss != [] {
      StartCallsAt(ss[1..]);
    }
  }

  /** The i-th Stop call is on the i-th source. */
  lemma {:induction false} StopCallsAt(ss: seq<DataSource>)
    ensures forall i :: 0 <= i < |ss| ==> StopCalls(ss)[i] == StopSource(ss[i].name, !ss[i].stopFails)
  {
    if ss != [] {
      StopCallsAt(ss[1..]);
    }
  }

  /** Starting one more source appends its Start call. */
  lemma StartCallsSnoc(ss: seq<DataSource>, i: nat)
    requires i < |ss|
    ensures StartCalls(ss[..i + 1]) == StartCalls(ss[..i]) + [StartSource(ss[i].name, !ss[i].startFails)]
  {
    assert ss[..i + 1] == ss[..i] + [ss[i]];
    StartCallsConcat(ss[..i], [ss[i]]);
  }

  /** When the sources before i all start and i fails or is past the end, i is the first failure. */
  lemma FailureAt(ss: seq<DataSource>, i: nat)
    requires i <= |ss| && (forall j :: 0 <= j < i ==> !ss[j].startFails) && (i < |ss| ==> ss[i].startFails)
    ensures FirstStartFailure(ss) == i
    ensures i < |ss| ==> StartTrace(ss) == StartCalls(ss[..i + 1])
    ensures i == |ss| ==> StartTrace(ss) == StartCalls(ss[..i]) + [LaunchLoop]
  {
    assert ss[..|ss|] == ss;
  }

  lemma {:induction false} StartCallsConcat(a: seq<DataSource>, b: seq<DataSource>)
    ensures StartCalls(a + b) == StartCalls(a) + StartCalls(b)
  {
    if a != [] {
      assert (a + b)[1..] == a[1..] + b;
      StartCallsConcat(a[1..], b);
    } else {
      assert a + b == b;
    }
  }

  lemma {:induction false} StopCallsConcat(a: seq<DataSource>, b: seq<DataSource>)
    ensures StopCalls(a + b) == StopCalls(a) + StopCalls(b)
  {
    if a != [] {
      assert (a + b)[1..] == a[1..] + b;
      StopCallsConcat(a[1..], b);
    } else {
      assert a + b == b;
    }
  }

  /**
   * The drain attempts each event exactly once, oldest first: the i-th
   * attempt is the i-th buffered event, whatever became of the ones before.
   */
  lemma {:induction false} AttemptsInOrder(events: seq<Event>, encode: Event -> Option<Bytes>, results: seq<bool>)
    requires |results| >= |events|
    ensures |Attempts(events, encode, results)| == |events|
    ensures forall i :: 0 <= i < |events| ==>
      Attempts(events, encode, results)[i] == Attempt(PublishEvent(events[i], encode, results[i]))
  {
    if events != [] {
      AttemptsInOrder(events[1..], encode, results[1..]);
    }
  }

  /** Draining in two rounds attempts the same events as draining once. */
  lemma {:induction false} AttemptsConcat(a: seq<Event>, b: seq<Event>, encode: Event -> Option<Bytes>, results: seq<bool>)
    requires |results| >= |a| + |b|
    ensures Attempts(a + b, encode, results) == Attempts(a, encode, results) + Attempts(b, encode, results[|a|..])
  {
    if a == [] {
      assert a + b == b;
    } else {
      assert (a + b)[1..] == a[1..] + b;
      assert results[1..][|a| - 1..] == results[|a|..];
      AttemptsConcat(a[1..], b, encode, results[1..]);
    }
  }

  /**
   * Start stops at the first failing source: the sources before it and it
   * are started in order, none after it, and the loop is launched exactly
   * when none failed.
   */
  lemma StartTraceShape(ss: seq<DataSource>)
    ensures var k := FirstStartFailure(ss); var t := StartTrace(ss);
      && (LaunchLoop in t <==> k == |ss|)
      && (forall i :: 0 <= i < |t| && t[i].StartSource? ==> i <= k && i < |ss| && t[i] == StartSource(ss[i].name, i < k))
      && (k < |ss| ==> |t| == k + 1 && t[k] == StartSource(ss[k].name, false))
      && (k == |ss| ==> |t| == |ss| + 1 && t[|ss|] == LaunchLoop)
  {
    var k := FirstStartFailure(ss);
    var t := StartTrace(ss);
    if k < |ss| {
      StartCallsAt(ss[..k + 1]);
      assert forall i :: 0 <= i < |t| ==> t[i] == StartSource(ss[i].name, !ss[i].startFails);
      assert LaunchLoop !in t by {
        forall i | 0 <= i < |t| ensures t[i] != LaunchLoop { }
      }
    } else {
      StartCallsAt(ss);
      assert LaunchLoop == t[|ss|];
    }
  }

  /**
   * Stop's order: every source is stopped, first to last and whether or not
   * an earlier Stop failed; only then is the channel closed; the drain comes
   * next; the topic and then the client are released last.
   */
  lemma StopTraceOrder(ss: seq<DataSource>, drained: seq<Action>)
    requires forall a :: a in drained ==> a.Attempt?
    ensures var t := StopTrace(ss, drained);
      && |t| == |ss| + |drained| + 3
      && (forall i :: 0 <= i < |ss| ==> t[i] == StopSource(ss[i].name, !ss[i].stopFails))
      && t[|ss|] == CloseChannel
      && t[|ss| + 1..|ss| + 1 + |drained|] == drained
      && t[|t| - 2] == StopTopic && t[|t| - 1] == CloseClient
      && (forall i :: 0 <= i < |t| && t[i] == CloseChannel ==> i == |ss|)
  {
    var t := StopTrace(ss, drained);
    StopCallsAt(ss);
    assert t == StopCalls(ss) + ([CloseChannel] + drained + [StopTopic, CloseClient]);
    forall i | 0 <= i < |t| && i != |ss|
      ensures t[i] != CloseChannel
    {
      if i < |ss| {
        assert t[i] == StopCalls(ss)[i];
      } else if |ss| < i < |ss| + 1 + |drained| {
        assert t[i] == drained[i - |ss| - 1];
        assert drained[i - |ss| - 1] in drained;
      }
    }
  }
}
