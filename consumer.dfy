/**
 * The consuming side: the background worker that subscribes to the
 * configured topics, polls while it is running and hands every valid record
 * to its handler, the default handler that decodes a record's fields, and the
 * module-level worker that application startup and shutdown drive.
 */
module Consumer {
  import opened Wrappers
  import opened Utf8
  import opened Seqs
  import Config

  /** A record header: a name and a value that may be absent. */
  type Header = (string, Option<Bytes>)

  /** A record as the consumer client returns it; `error` is set for an error event instead of a record. */
  datatype Message = Message(
    topic: string,
    partition: int,
    offset: int,
    key: Option<Bytes>,
    value: Option<Bytes>,
    headers: Option<seq<Header>>,
    error: Option<string>)

  /** What one poll with a one-second timeout gives: nothing, a record or error event, or an exception. */
  datatype PollOutcome = NoRecord | Polled(msg: Message) | PollRaised

  /** The record the loop hands to the handler after one poll, if any. */
  function Dispatched(o: PollOutcome): (r: Option<Message>)
    ensures r.Some? <==> o.Polled? && o.msg.error.None?
    ensures r.Some? ==> r.value == o.msg
  {
    if o.Polled? && o.msg.error.None? then Some(o.msg) else None
  }

  /**
   * The records handed to the handler over a run of polls, in poll order: at
   * most one per poll, and never an error event.
   */
  function Delivered(polls: seq<PollOutcome>): (r: seq<Message>)
    ensures |r| <= |polls|
    ensures forall m :: m in r ==> m.error.None?
  {
    var r := FilterMap(Dispatched, polls);
    assert forall m :: m in r ==> m.error.None? by {
      forall m | m in r ensures m.error.None? {
        FilterMapMember(Dispatched, polls, m);
      }
    }
    r
  }

  /**
   * The handler receives exactly the valid records: the k-th record it
   * receives is the one at the k-th position where a record without an error
   * was polled, so none is skipped, repeated or reordered.
   */
  lemma DeliveredExactlyValid(polls: seq<PollOutcome>)
    ensures var idx := KeptIndices(Dispatched, polls);
            && |Delivered(polls)| == |idx|
            && (forall k :: 0 <= k < |idx| ==> polls[idx[k]].Polled? && Delivered(polls)[k] == polls[idx[k]].msg)
            && (forall k, l :: 0 <= k < l < |idx| ==> idx[k] < idx[l])
            && (forall i :: 0 <= i < |polls| ==> (i in idx <==> polls[i].Polled? && polls[i].msg.error.None?))
  {
    FilterMapAtKeptIndices(Dispatched, polls);
    var idx := KeptIndices(Dispatched, polls);
    forall i | 0 <= i < |polls| && i in idx
      ensures polls[i].Polled? && polls[i].msg.error.None?
    {
      var k :| 0 <= k < |idx| && idx[k] == i;
    }
  }

  /** Successive runs of polls hand over their records in sequence. */
  lemma DeliveredAppend(a: seq<PollOutcome>, b: seq<PollOutcome>)
    ensures Delivered(a + b) == Delivered(a) + Delivered(b)
  {
    FilterMapAppend(Dispatched, a, b);
  }

  /** Which part of a record the default handler could not decode. */
  datatype Field = HeaderValue(name: string) | Key | Value

  /** A header value as the default handler shows it: bytes are decoded, an absent value stays absent. */
  function HeaderText(v: Option<Bytes>): (r: Result<Option<string>, ()>)
    ensures r.Ok? <==> v.None? || Decode(v.value).Some?
    ensures r.Ok? && v.Some? ==> r.value.Some? && Encode(r.value.value) == v.value
    ensures r.Ok? && v.None? ==> r.value.None?
  {
    if v.None? then Ok(None)
    else match Decode(v.value)
      case None => Err(())
      case Some(s) => EncodeDecode(v.value); Ok(Some(s))
  }

  /** Whether one header's value decodes. */
  predicate HeaderDecodes(h: Header) {
    HeaderText(h.1).Ok?
  }

  /**
   * The header dictionary built left to right, a later header overriding an
   * earlier one of the same name; the first header whose value does not
   * decode ends the construction with that header's name.
   */
  function HeaderMap(hs: seq<Header>): (r: Result<map<string, Option<string>>, string>)
    ensures r.Ok? <==> forall i :: 0 <= i < |hs| ==> HeaderDecodes(hs[i])
  {
    if hs == [] then Ok(map[])
    else
      var n := |hs| - 1;
      match HeaderMap(hs[..n])
      case Err(name) => Err(name)
      case Ok(m) =>
        match HeaderText(hs[n].1)
        case Err(_) => Err(hs[n].0)
        case Ok(v) => Ok(m[hs[n].0 := v])
  }

  /** The dictionary has exactly the header names as keys. */
  lemma {:induction false} HeaderMapKeys(hs: seq<Header>)
    requires HeaderMap(hs).Ok?
    ensures HeaderMap(hs).value.Keys == set i | 0 <= i < |hs| :: hs[i].0
  {
    if hs != [] {
      var n := |hs| - 1;
      HeaderMapKeys(hs[..n]);
      assert (set i | 0 <= i < |hs| :: hs[i].0) == (set i | 0 <= i < n :: hs[..n][i].0) + {hs[n].0};
    }
  }

  /** A failure names the first header whose value does not decode. */
  lemma {:induction false} HeaderMapFirstError(hs: seq<Header>)
    requires HeaderMap(hs).Err?
    ensures exists i :: 0 <= i < |hs| && !HeaderDecodes(hs[i]) && hs[i].0 == HeaderMap(hs).error &&
                        forall j :: 0 <= j < i ==> HeaderDecodes(hs[j])
  {
    var n := |hs| - 1;
    var front := hs[..n];
    assert forall j :: 0 <= j < n ==> front[j] == hs[j];
    if HeaderMap(front).Err? {
      assert HeaderMap(hs).error == HeaderMap(front).error;
      HeaderMapFirstError(front);
      var i :| 0 <= i < n && !HeaderDecodes(front[i]) && front[i].0 == HeaderMap(front).error &&
               forall j :: 0 <= j < i ==> HeaderDecodes(front[j]);
      assert !HeaderDecodes(hs[i]) && hs[i].0 == HeaderMap(hs).error;
    } else {
      assert HeaderMap(hs).error == hs[n].0 && !HeaderDecodes(hs[n]);
    }
  }

  /** A header name maps to the decoded value of the last header with that name. */
  lemma {:induction false} HeaderMapLastWins(hs: seq<Header>, i: nat)
    requires HeaderMap(hs).Ok?
    requires i < |hs| && forall j :: i < j < |hs| ==> hs[j].0 != hs[i].0
    ensures hs[i].0 in HeaderMap(hs).value && HeaderMap(hs).value[hs[i].0] == HeaderText(hs[i].1).value
  {
    var n := |hs| - 1;
    if i < n {
      assert HeaderMap(hs[..n]).Ok?;
      HeaderMapLastWins(hs[..n], i);
    }
  }

  /** A key or value as the default handler shows it: an absent or empty one is shown as absent. */
  function FieldText(b: Option<Bytes>): (r: Result<Option<string>, ()>)
    ensures r.Ok? <==> b.None? || b.value == [] || Decode(b.value).Some?
    ensures r.Ok? ==> (r.value.None? <==> b.None? || b.value == [])
    ensures r.Ok? && r.value.Some? ==> Encode(r.value.value) == b.value
  {
    if b.None? || b.value == [] then Ok(None)
    else match Decode(b.value)
      case None => Err(())
      case Some(s) => EncodeDecode(b.value); Ok(Some(s))
  }

  /** The fields the default handler logs for one record. */
  datatype Consumed = Consumed(
    topic: string,
    partition: int,
    offset: int,
    key: Option<string>,
    value: Option<string>,
    headers: map<string, Option<string>>)

  /** The headers of a record, or none when it has none. */
  function HeaderList(m: Message): seq<Header> {
    if m.headers.Some? then m.headers.value else []
  }

  /**
   * The default handler: it builds the header dictionary first, then decodes
   * the key, then the value, and raises on the first part that is not UTF-8.
   */
  function DefaultHandler(m: Message): (r: Result<Consumed, Field>)
    ensures r.Ok? <==> (forall i :: 0 <= i < |HeaderList(m)| ==> HeaderDecodes(HeaderList(m)[i]))
                       && FieldText(m.key).Ok? && FieldText(m.value).Ok?
    ensures r.Ok? ==> r.value.topic == m.topic && r.value.partition == m.partition && r.value.offset == m.offset
    ensures r.Ok? ==> r.value.key == FieldText(m.key).value && r.value.value == FieldText(m.value).value
    ensures r.Ok? ==> r.value.headers == HeaderMap(HeaderList(m)).value
    ensures r.Ok? ==> r.value.headers.Keys == set i | 0 <= i < |HeaderList(m)| :: HeaderList(m)[i].0
    ensures r.Err? && r.error.HeaderValue? ==> HeaderMap(HeaderList(m)) == Err(r.error.name)
    ensures r == Err(Key) ==> HeaderMap(HeaderList(m)).Ok? && FieldText(m.key).Err?
    ensures r == Err(Value) ==> HeaderMap(HeaderList(m)).Ok? && FieldText(m.key).Ok? && FieldText(m.value).Err?
  {
    match HeaderMap(HeaderList(m))
    case Err(name) => Err(HeaderValue(name))
    case Ok(hm) =>
      HeaderMapKeys(HeaderList(m));
      match FieldText(m.key)
      case Err(_) => Err(Key)
      case Ok(k) =>
        match FieldText(m.value)
        case Err(_) => Err(Value)
        case Ok(v) => Ok(Consumed(m.topic, m.partition, m.offset, k, v, hm))
  }

  /** The handler a worker calls: the default one, or one the application supplied. */
  datatype Handler = Default | Custom(id: nat)

  /** A call made on the consumer client. */
  datatype ConsumerCall = Subscribe(topics: seq<string>) | Poll(timeout: real) | Close

  /** `n` polls with the loop's one-second timeout. */
  function PollCalls(n: nat): (calls: seq<ConsumerCall>)
    ensures |calls| == n && forall i :: 0 <= i < n ==> calls[i] == Poll(1.0)
  {
    if n == 0 then [] else PollCalls(n - 1) + [Poll(1.0)]
  }

  /** The consumer client handle; it records the calls made on it. */
  class BrokerConsumer {
    const conf: Config.Conf
    var calls: seq<ConsumerCall>

    constructor(conf: Config.Conf)
      ensures this.conf == conf && calls == []
    {
      this.conf := conf;
      calls := [];
    }

    /** Subscribes to the topics; `ok` is false when the client raises instead. */
    method SubscribeTo(topics: seq<string>, succeeds: bool) returns (ok: bool)
      modifies this
      ensures ok == succeeds
      ensures calls == old(calls) + [Subscribe(topics)]
    {
      calls := calls + [Subscribe(topics)];
      ok := succeeds;
    }

    /** Polls once with a one-second timeout; what the broker answers is the `outcome` passed in. */
    method PollOnce(outcome: PollOutcome) returns (r: PollOutcome)
      modifies this
      ensures r == outcome
      ensures calls == old(calls) + [Poll(1.0)]
    {
      calls := calls + [Poll(1.0)];
      r := outcome;
    }

    /** Closes the client; `ok` is false when the client raises instead. */
    method CloseClient(succeeds: bool) returns (ok: bool)
      modifies this
      ensures ok == succeeds
      ensures calls == old(calls) + [Close]
    {
      calls := calls + [Close];
      ok := succeeds;
    }
  }

  /** The worker's thread: none yet, created but not running the loop, or running it. */
  datatype ThreadState = NoThread | Idle | Alive

  /** How a start attempt goes: which step raises, if any. */
  datatype StartOutcome = ConstructFails | SubscribeFails | ThreadFails | Starts

  /** The background consumer. */
  class KafkaConsumerWorker {
    const settings: Config.Settings
    const handler: Handler
    var consumer: BrokerConsumer?
    var thread: ThreadState
    var running: bool
    /** Every record handed to the handler so far, in order. */
    var handled: seq<Message>

    /** The worker runs exactly while its thread is alive, and only with a client. */
    predicate Valid()
      reads this
    {
      && (running <==> thread == Alive)
      && (running ==> consumer != null)
    }

    /** A new worker is idle: not running, no client, no thread; without a handler it uses the default one. */
    constructor(settings: Config.Settings, handler: Option<Handler>)
      ensures this.settings == settings
      ensures this.handler == (if handler.Some? then handler.value else Default)
      ensures consumer == null && thread == NoThread && !running && handled == []
      ensures Valid()
    {
      this.settings := settings;
      this.handler := if handler.Some? then handler.value else Default;
      consumer := null;
      thread := NoThread;
      running := false;
      handled := [];
    }

    /**
     * Starts consuming unless already running. A fresh client with the
     * consumer configuration subscribes to the configured topics; only when
     * that and starting the thread succeed is the worker running. A failure
     * is not raised: the worker is left not running, keeping whatever client
     * and thread were created before the failing step.
     */
    method Start(outcome: StartOutcome)
      requires Valid()
      modifies this
      ensures Valid()
      ensures handled == old(handled)
      ensures old(running) ==> running && consumer == old(consumer) && thread == old(thread)
      ensures !old(running) ==> (running <==> outcome == Starts)
      ensures !old(running) && outcome == ConstructFails ==> consumer == old(consumer) && thread == old(thread)
      ensures !old(running) && outcome != ConstructFails ==>
                consumer != null && fresh(consumer) &&
                consumer.conf == Config.KafkaConsumer(settings) &&
                consumer.calls == [Subscribe(Config.ConsumerTopics(settings))]
      ensures !old(running) && outcome == SubscribeFails ==> thread == old(thread)
      ensures !old(running) && outcome == ThreadFails ==> thread == Idle
      ensures !old(running) && outcome == Starts ==> thread == Alive
    {
      if running {
        return;
      }
      if outcome == ConstructFails {
        running := false;
        return;
      }
      consumer := new BrokerConsumer(Config.KafkaConsumer(settings));
      var subscribed := consumer.SubscribeTo(Config.ConsumerTopics(settings), outcome != SubscribeFails);
      if !subscribed {
        running := false;
        return;
      }
      running := true;
      if outcome == ThreadFails {
        thread := Idle;
        running := false;
        return;
      }
      thread := Alive;
    }

    /**
     * The thread's loop over the answers of successive polls, up to the point
     * where another thread clears `running`. While running, each answer costs
     * one poll; a record without an error goes to the handler, while an empty
     * poll, an error event or a raised exception only moves on to the next poll.
     */
    method Loop(polls: seq<PollOutcome>)
      requires Valid() && consumer != null
      modifies this, consumer
      ensures Valid()
      ensures consumer == old(consumer) && running == old(running) && thread == old(thread)
      ensures old(running) ==> consumer.calls == old(consumer.calls) + PollCalls(|polls|)
      ensures old(running) ==> handled == old(handled) + Delivered(polls)
      ensures !old(running) ==> consumer.calls == old(consumer.calls) && handled == old(handled)
    {
      var i := 0;
      while running && i < |polls|
        invariant 0 <= i <= |polls|
        invariant !running ==> i == 0
        invariant consumer == old(consumer) && running == old(running) && thread == old(thread)
        invariant consumer.calls == old(consumer.calls) + PollCalls(i)
        invariant handled == old(handled) + Delivered(polls[..i])
      {
        var answer := consumer.PollOnce(polls[i]);
        DeliveredAppend(polls[..i], [polls[i]]);
        assert polls[..i + 1] == polls[..i] + [polls[i]];
        if answer.Polled? && answer.msg.error.None? {
          handled := handled + [answer.msg];
        }
        i := i + 1;
      }
      assert running ==> polls[..i] == polls;
    }

    /**
     * Clears `running`, waits for a live thread to finish its loop, and closes
     * the client if there is one; an error from closing is swallowed. The
     * client and thread stay recorded, so stopping again closes again.
     */
    method Stop(closes: bool)
      requires Valid()
      modifies this, consumer
      ensures Valid()
      ensures !running
      ensures consumer == old(consumer) && handled == old(handled)
      ensures thread == (if old(thread) == Alive then Idle else old(thread))
      ensures consumer != null ==> consumer.calls == old(consumer.calls) + [Close]
    {
      running := false;
      if thread == Alive {
        thread := Idle;
      }
      if consumer != null {
        var closed := consumer.CloseClient(closes);
      }
    }
  }

  /** The module-level worker, created by the first start and dropped on stop. */
  class ConsumerRuntime {
    var worker: KafkaConsumerWorker?

    /** The module-level worker, when there is one, is consistent. */
    predicate Valid()
      reads this, worker
    {
      worker != null ==> worker.Valid()
    }

    constructor()
      ensures worker == null
      ensures Valid()
    {
      worker := null;
    }

    /** Creates the worker if there is none (a later handler is ignored) and starts it. */
    method StartConsumer(settings: Config.Settings, handler: Option<Handler>, outcome: StartOutcome)
      requires Valid()
      modifies this, worker
      ensures Valid() && worker != null
      ensures old(worker) != null ==> worker == old(worker) && worker.handled == old(worker.handled)
      ensures old(worker) == null ==>
                fresh(worker) && worker.settings == settings &&
                worker.handler == (if handler.Some? then handler.value else Default) &&
                worker.handled == []
      ensures worker.running <==> (old(worker) != null && old(worker.running)) || outcome == Starts
      // an already running worker keeps its client and thread
      ensures old(worker) != null && old(worker.running) ==>
                worker.consumer == old(worker.consumer) && worker.thread == old(worker.thread)
      // otherwise a failed construction leaves the previous client and thread, if any
      ensures old(worker) == null && outcome == ConstructFails ==> worker.consumer == null && worker.thread == NoThread
      ensures old(worker) != null && !old(worker.running) && outcome == ConstructFails ==>
                worker.consumer == old(worker.consumer) && worker.thread == old(worker.thread)
      // and any later step works with a fresh client subscribed to the configured topics
      ensures (old(worker) == null || !old(worker.running)) && outcome != ConstructFails ==>
                worker.consumer != null && fresh(worker.consumer) &&
                worker.consumer.conf == Config.KafkaConsumer(worker.settings) &&
                worker.consumer.calls == [Subscribe(Config.ConsumerTopics(worker.settings))]
      ensures (old(worker) == null || !old(worker.running)) && outcome == SubscribeFails ==>
                worker.thread == (if old(worker) == null then NoThread else old(worker.thread))
      ensures (old(worker) == null || !old(worker.running)) && outcome == ThreadFails ==> worker.thread == Idle
    {
      if worker == null {
        worker := new KafkaConsumerWorker(settings, handler);
      }
      worker.Start(outcome);
    }

    /** Stops and drops the worker; without a worker it does nothing. */
    method StopConsumer(closes: bool)
      requires Valid()
      modifies this, worker, if worker != null then worker.consumer else null
      ensures worker == null
      ensures old(worker) != null ==> !old(worker).running
      ensures old(worker) != null && old(worker.consumer) != null ==>
                old(worker.consumer).calls == old(worker.consumer.calls) + [Close]
    {
      if worker != null {
        worker.Stop(closes);
        worker := null;
      }
    }
  }
}
