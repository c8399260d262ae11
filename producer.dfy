/**
 * The publishing side: how a request's value, key and headers become the
 * bytes handed to the broker client, the status reported back, and the
 * lazily created, process-wide producer handle.
 */
module Producer {
  import opened Wrappers
  import opened Utf8
  import Config

  /** A JSON value as the request body carries it. */
  datatype Json =
    | Null
    | Boolean(b: bool)
    | Number(n: int)
    | Text(s: string)
    | Array(items: seq<Json>)
    | Object(fields: JsonObject)

  /** A JSON object: its members in insertion order. */
  type JsonObject = seq<(string, Json)>

  /** The value to publish: raw bytes, a string, or a JSON object. */
  datatype Value = Raw(bytes: Bytes) | Str(text: string) | Dict(obj: JsonObject)

  /** Headers in the dictionary's iteration order. */
  type Headers = seq<(string, string)>

  /** Headers as the broker client takes them: names with UTF-8 encoded values. */
  type WireHeaders = seq<(string, Bytes)>

  /**
   * The payload bytes. Bytes pass through; a string is UTF-8 encoded; a JSON
   * object is rendered by `dumps` (compact separators, non-ASCII kept) and
   * then UTF-8 encoded. Only the object branch uses the JSON encoder.
   */
  function PayloadBytes(v: Value, dumps: JsonObject -> string): (r: Bytes)
    ensures v.Raw? ==> r == v.bytes
    ensures v.Str? ==> Decode(r) == Some(v.text)
    ensures v.Dict? ==> Decode(r) == Some(dumps(v.obj))
  {
    match v
    case Raw(b) => b
    case Str(t) => DecodeEncode(t); Encode(t)
    case Dict(o) => DecodeEncode(dumps(o)); Encode(dumps(o))
  }

  /** The key bytes: a key is sent only when it is present and non-empty. */
  function KeyBytes(key: Option<string>): (r: Option<Bytes>)
    ensures r.Some? <==> key.Some? && key.value != ""
    ensures r.Some? ==> Decode(r.value) == key
  {
    if key.Some? && key.value != "" then
      DecodeEncode(key.value);
      Some(Encode(key.value))
    else None
  }

  /**
   * The headers as the broker client takes them: nothing at all for a
   * missing or empty dictionary, otherwise one pair per entry in iteration
   * order, each value UTF-8 encoded.
   */
  method BuildHeaders(headers: Option<Headers>) returns (out: Option<WireHeaders>)
    ensures out == WireOf(headers)
    ensures out.Some? ==> forall i :: 0 <= i < |out.value| ==>
              Decode(out.value[i].1) == Some(headers.value[i].1)
  {
    if headers.None? || headers.value == [] {
      return None;
    }
    var hs := headers.value;
    var acc: WireHeaders := [];
    var i := 0;
    while i < |hs|
      invariant 0 <= i <= |hs|
      invariant |acc| == i
      invariant forall j :: 0 <= j < i ==> acc[j].0 == hs[j].0 && acc[j].1 == Encode(hs[j].1)
      invariant forall j :: 0 <= j < i ==> Decode(acc[j].1) == Some(hs[j].1)
    {
      var (k, v) := hs[i];
      DecodeEncode(v);
      acc := acc + [(k, Encode(v))];
      i := i + 1;
    }
    assert acc == WireOf(headers).value;
    return Some(acc);
  }

  /** The reported status: "delivered" exactly when the caller asked to wait, "enqueued" otherwise. */
  function Status(sync: bool): (status: string)
    ensures status == "delivered" <==> sync
    ensures status == "enqueued" <==> !sync
  {
    if sync then "delivered" else "enqueued"
  }

  /** What produce_message returns. */
  datatype PublishResult = PublishResult(topic: string, status: string)

  /** A call made on the broker client. Timeouts are in seconds. */
  datatype ProducerCall =
    | Produce(topic: string, key: Option<Bytes>, value: Bytes, headers: Option<WireHeaders>)
    | Poll(timeout: real)
    | Flush(timeout: real)

  /** Why publishing or closing failed. */
  datatype Failure = ConstructFailed | ProduceRejected | FlushFailed

  /**
   * The producer record a publish request hands to the client: it goes to
   * the requested topic, carries the key only when the key is non-empty, and
   * every byte string in it decodes back to the text it was made from.
   */
  function Record(topic: string, value: Value, key: Option<string>, headers: Option<Headers>,
                  dumps: JsonObject -> string): (call: ProducerCall)
    ensures call.Produce? && call.topic == topic
    ensures call.key.Some? <==> Config.Truthy(key)
    ensures call.key.Some? ==> Decode(call.key.value) == key
    ensures value.Raw? ==> call.value == value.bytes
    ensures value.Str? ==> Decode(call.value) == Some(value.text)
    ensures value.Dict? ==> Decode(call.value) == Some(dumps(value.obj))
    ensures call.headers.None? <==> headers.None? || headers.value == []
    ensures call.headers.Some? ==> |call.headers.value| == |headers.value|
    ensures call.headers.Some? ==> forall i :: 0 <= i < |headers.value| ==>
              call.headers.value[i].0 == headers.value[i].0 && Decode(call.headers.value[i].1) == Some(headers.value[i].1)
  {
    var wire := WireOf(headers);
    assert wire.Some? ==> forall i :: 0 <= i < |headers.value| ==> Decode(wire.value[i].1) == Some(headers.value[i].1) by {
      if wire.Some? {
        forall i | 0 <= i < |headers.value| ensures Decode(wire.value[i].1) == Some(headers.value[i].1) {
          DecodeEncode(headers.value[i].1);
        }
      }
    }
    Produce(topic, KeyBytes(key), PayloadBytes(value, dumps), wire)
  }

  /** The header list BuildHeaders computes, as a value. */
  function WireOf(headers: Option<Headers>): (out: Option<WireHeaders>)
    ensures out.None? <==> headers.None? || headers.value == []
    ensures out.Some? ==> |out.value| == |headers.value|
    ensures out.Some? ==> forall i :: 0 <= i < |headers.value| ==>
              out.value[i] == (headers.value[i].0, Encode(headers.value[i].1))
  {
    if headers.None? || headers.value == [] then None
    else Some(seq(|headers.value|, i requires 0 <= i < |headers.value| =>
                    (headers.value[i].0, Encode(headers.value[i].1))))
  }

  /**
   * The calls one publish makes on the client: the record, and, once the
   * client accepted it, poll(0) to serve delivery callbacks and, for a
   * synchronous publish only, a flush with the caller's timeout.
   */
  function PublishCalls(record: ProducerCall, accepted: bool, sync: bool, timeout: real): (calls: seq<ProducerCall>)
    requires record.Produce?
    ensures |calls| == if !accepted then 1 else if sync then 3 else 2
    ensures calls[0] == record
    ensures accepted ==> calls[1] == Poll(0.0)
    ensures Flush(timeout) in calls <==> accepted && sync
  {
    [record] + (if accepted then [Poll(0.0)] + (if sync then [Flush(timeout)] else []) else [])
  }

  /** The broker client handle; it records the calls made on it. */
  class BrokerProducer {
    const conf: Config.Conf
    var calls: seq<ProducerCall>

    constructor(conf: Config.Conf)
      ensures this.conf == conf && calls == []
    {
      this.conf := conf;
      calls := [];
    }

    /** Enqueues a record; `accepted` is false when the client raises instead (a full queue, say). */
    method Send(record: ProducerCall, accepted: bool) returns (ok: bool)
      requires record.Produce?
      modifies this
      ensures ok == accepted
      ensures calls == old(calls) + [record]
    {
      calls := calls + [record];
      ok := accepted;
    }

    /** Serves delivery callbacks, waiting at most `timeout` seconds. */
    method PollEvents(timeout: real)
      modifies this
      ensures calls == old(calls) + [Poll(timeout)]
    {
      calls := calls + [Poll(timeout)];
    }

    /** Waits for outstanding deliveries; `ok` is false when the client raises instead. */
    method FlushQueue(timeout: real, succeeds: bool) returns (ok: bool)
      modifies this
      ensures ok == succeeds
      ensures calls == old(calls) + [Flush(timeout)]
    {
      calls := calls + [Flush(timeout)];
      ok := succeeds;
    }
  }

  /** The module-level producer handle, created on first use and cleared on close. */
  class ProducerManager {
    var producer: BrokerProducer?

    constructor()
      ensures producer == null
    {
      producer := null;
    }

    /**
     * The handle, creating it from the settings' producer configuration only
     * when there is none; `constructs` is false when the client constructor raises.
     */
    method GetProducer(settings: Config.Settings, constructs: bool) returns (r: Result<BrokerProducer, Failure>)
      modifies this
      ensures old(producer) != null ==> r == Ok(old(producer)) && producer == old(producer)
      ensures old(producer) == null && constructs ==>
                r.Ok? && fresh(r.value) && producer == r.value &&
                r.value.conf == Config.KafkaProducer(settings) && r.value.calls == []
      ensures old(producer) == null && !constructs ==> r == Err(ConstructFailed) && producer == null
    {
      if producer == null {
        if !constructs {
          return Err(ConstructFailed);
        }
        producer := new BrokerProducer(Config.KafkaProducer(settings));
      }
      return Ok(producer);
    }

    /**
     * Publishes one value. The record goes to the client first, then poll(0);
     * only a synchronous publish flushes. The result names the requested
     * topic and reports "delivered" exactly when the publish was synchronous.
     */
    method ProduceMessage(settings: Config.Settings, topic: string, value: Value, key: Option<string>,
                          headers: Option<Headers>, sync: bool, timeout: real,
                          dumps: JsonObject -> string, constructs: bool, accepted: bool)
      returns (r: Result<PublishResult, Failure>)
      modifies this, producer
      ensures old(producer) != null ==> producer == old(producer)
      ensures old(producer) == null ==> producer == null || (fresh(producer) && producer.conf == Config.KafkaProducer(settings))
      ensures producer == null <==> old(producer) == null && !constructs
      ensures producer == null ==> r == Err(ConstructFailed)
      ensures producer != null ==>
                producer.calls == old(if producer == null then [] else producer.calls) +
                                  PublishCalls(Record(topic, value, key, headers, dumps), accepted, sync, timeout)
      ensures producer != null && !accepted ==> r == Err(ProduceRejected)
      ensures r.Ok? <==> (old(producer) != null || constructs) && accepted
      ensures r.Ok? ==> r.value == PublishResult(topic, Status(sync))
    {
      var got := GetProducer(settings, constructs);
      if got.Err? {
        return Err(got.error);
      }
      var p := got.value;
      var payload := PayloadBytes(value, dumps);
      var hdrs := BuildHeaders(headers);
      assert hdrs == WireOf(headers);
      var record := Produce(topic, KeyBytes(key), payload, hdrs);
      var ok := p.Send(record, accepted);
      if !ok {
        return Err(ProduceRejected);
      }
      p.PollEvents(0.0);
      var status: string;
      if sync {
        var flushed := p.FlushQueue(timeout, true);
        status := "delivered";
      } else {
        status := "enqueued";
      }
      return Ok(PublishResult(topic, status));
    }

    /**
     * Flushes with a five-second timeout and drops the handle. The handle is
     * dropped even when the flush raises, and that error still reaches the caller.
     */
    method CloseProducer(flushes: bool) returns (err: Option<Failure>)
      modifies this, producer
      ensures producer == null
      ensures old(producer) == null ==> err == None
      ensures old(producer) != null ==> old(producer).calls == old(producer.calls) + [Flush(5.0)]
      ensures old(producer) != null ==> (err == None <==> flushes)
      ensures err.Some? ==> err.value == FlushFailed
    {
      err := None;
      if producer != null {
        var ok := producer.FlushQueue(5.0, flushes);
        if !ok {
          err := Some(FlushFailed);
        }
        producer := null;
      }
    }
  }
}
