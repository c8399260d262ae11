# Verified model of an HTTP-to-Kafka gateway

The system is a small web service that publishes request payloads to a Kafka
cluster (Amazon MSK or any broker reachable over the Confluent client) and runs
a background consumer that logs what it reads. This project models its core in
Dafny and proves properties of the model:

- **Configuration** (`config.dfy`, module `Config`): the settings record with
  its defaults, the three client configuration maps (`kafka_common`,
  `kafka_producer`, `kafka_consumer`), and `consumer_topics`, which reads a
  comma-separated list of extra topics. Python's `str.split`, `str.strip` and
  `str.isspace` are written out. `str.isspace` follows the code points that
  Python treats as whitespace.
- **Publishing** (`producer.dfy`, module `Producer`): how a value, a key and a
  header dictionary become bytes for the client. It also covers the status
  string returned to the caller and the calls made on the client (`produce`,
  then `poll(0)`, then `flush` only for a synchronous publish). The lazily
  created process-wide producer handle is the class `ProducerManager`, with a
  nullable field.
- **Consuming** (`consumer.dfy`, module `Consumer`): the worker class with its
  `running` flag, client handle and thread state. It covers `start` with each
  step that can fail, the poll loop's dispatch, and `stop`. The default handler
  decodes a record's headers, key and value. The module-level worker
  (`ConsumerRuntime`) is created on the first start and dropped on stop.
- **UTF-8** (`utf8.dfy`, module `Utf8`): the encoder and the strict decoder of
  RFC 3629 (sections 3 and 4) that Python's `str.encode("utf-8")` and
  `bytes.decode("utf-8")` implement. The round trip is proved in both
  directions.
- **Filtering comprehension** (`seqs.dfy`, module `Seqs`): Python's
  `[g(x) for x in xs if p(x)]`, written as a single `FilterMap`. Its lemmas say
  that nothing kept is lost, reordered or duplicated. `consumer_topics` and the
  poll loop are both instances of it.
- **End to end** (`gateway.dfy`, module `Gateway`): the publish endpoint's
  topic fallback. A lemma shows that a string published with a key and headers
  is shown by the consumer's default handler with the same topic, key, text and
  headers.

The broker client is not modelled by its semantics. `BrokerProducer` and
`BrokerConsumer` are classes that record the calls made on them. Whether a
call raises is an input:
- `constructs`, `accepted` and `flushes` for the producer side;
- `StartOutcome` and `closes` for the consumer side.

What a poll returns is also an input: the sequence of `PollOutcome` values
handed to `Loop`. The JSON encoder is the function parameter `dumps`. Settings
are an input value.

Some behaviour of the code is easy to misread, and the model keeps it as
written:
- `close_producer` flushes inside `try`/`finally` with no `except`. A failing
  flush therefore still reaches the caller (application shutdown), after the
  handle has been cleared. It is not swallowed.
- `stop` of the consumer worker does not clear its client or thread. Stopping
  a worker twice closes the client twice.
- A failed `start` keeps the client it created. A later `start` replaces it
  without closing it.

## Model

| member | source | states |
|---|---|---|
| `Config.Defaults` | app/config.py:8-24 | With no environment variable set, the common configuration holds only the local plaintext broker, the client id and the protocol, with no SASL or SSL key. The producer is idempotent with a 120000 ms delivery timeout. The consumer joins msk-fastapi-group from the earliest offset, and it subscribes to exactly ["events"]. |
| `Config.KafkaCommon` | app/config.py:30-45 | bootstrap.servers, client.id and security.protocol are always present with their settings. Each SASL key is present exactly when its setting is truthy, with that value. ssl.ca.location is present exactly when set. The endpoint-identification key is present exactly when ssl.ca.location is, and is always "https". No other key appears. |
| `Config.KafkaProducer` | app/config.py:47-56 | The keys are the common keys plus exactly enable.idempotence, acks and delivery.timeout.ms. Every common entry is kept. acks is "all", and the other two carry their settings. |
| `Config.KafkaConsumer` | app/config.py:58-67 | The keys are the common keys plus exactly group.id, auto.offset.reset and enable.auto.commit. Every common entry is kept. enable.auto.commit is true, and the other two carry their settings. |
| `Config.IsSpace` | app/config.py:72 | A comma, the separator of the topic list, is never whitespace. |
| `Config.IsSpaceAscii` | app/config.py:72 | Among ASCII characters, exactly space, tab, line feed, carriage return, vertical tab, form feed and the four separators 0x1C-0x1F are whitespace. |
| `Config.StripLeading` | app/config.py:72 | The result is a suffix of the input. Everything removed is whitespace. The result is empty or starts with a non-space. |
| `Config.StripTrailing` | app/config.py:72 | The result is a prefix of the input. Everything removed is whitespace. The result is empty or ends with a non-space. |
| `Config.Strip` | app/config.py:72 | The result is empty or has non-space characters at both ends. It is empty exactly when the input is all whitespace. |
| `Config.StripSlice` | app/config.py:72 | strip returns a contiguous slice of its input, and only whitespace lies outside that slice. |
| `Config.Split` | app/config.py:72 | No piece contains the separator. |
| `Config.SplitCount` | app/config.py:72 | split gives exactly one more piece than there are separators. |
| `Config.JoinSplit` | app/config.py:72 | Joining the pieces with the separator gives the input back, so splitting loses nothing. |
| `Config.StrippedTopic` | app/config.py:72 | A piece is kept exactly when it is not all whitespace. A kept piece becomes its stripped form. |
| `Config.ExtraTopics` | app/config.py:72 | Every extra topic is non-empty and has no leading or trailing whitespace. |
| `Config.ExtraTopicsCount` | app/config.py:72 | The number of extra topics is at most the number of commas plus one. |
| `Config.ConsumerTopics` | app/config.py:69-73 | The default topic always comes first. The result is exactly [default] when extra_topics is absent or empty. |
| `Config.ExtraTopicsInOrder` | app/config.py:72 | There is one extra topic per non-blank piece, and only those. Each is the stripped piece. They keep the pieces' left-to-right order. |
| `Config.ExtraTopicsTrimmed` | app/config.py:72 | Every topic after the first is non-empty and has no leading or trailing whitespace. |
| `Config.ConsumerTopicsLength` | app/config.py:70-72 | The length is 1 plus the number of non-blank pieces. There is no de-duplication. |
| `Config.SplitExample` | app/config.py:72 | "a, b,,c" splits into "a", " b", "" and "c". |
| `Config.StripOneChar` | app/config.py:72 | A one-character piece, with or without a leading space, becomes that one-character topic. |
| `Config.TopicsOfPieces` | app/config.py:72 | The pieces "a", " b", "" and "c" give the topics a, b and c. |
| `Config.ExtraTopicsExample` | app/config.py:72 | The extra topics of "a, b,,c" are a, b and c. |
| `Config.ConsumerTopicsExample` | app/config.py:69-73 | With extra_topics "a, b,,c", the topics are the default topic, then a, b and c. |
| `Seqs.FilterMap` | app/config.py:72 | A comprehension never yields more elements than its input has. |
| `Seqs.KeptIndices` | app/config.py:72 | The positions of the kept elements are in range, strictly increasing, and include every kept position. |
| `Seqs.FilterMapFour` | app/config.py:72 | Of four elements with the third dropped, the other three results are yielded in order. |
| `Seqs.FilterMapAppend` | app/config.py:72 | Filtering a concatenation gives the concatenation of the filtered parts. |
| `Seqs.FilterMapAtKeptIndices` | app/config.py:72 | The k-th result is the image of the k-th kept element. |
| `Seqs.FilterMapMember` | app/config.py:72 | A value is in the result exactly when some input element maps to it. |
| `Seqs.FilterMapLength` | app/config.py:72 | The result has one element per kept input element. |
| `Utf8.EncodeChar` | app/kafka/producer.py:63 | A character takes 1 to 4 octets. It takes exactly one octet when it is ASCII. Every octet after the first is a continuation octet. |
| `Utf8.Encode` | app/kafka/producer.py:63 | The encoding is at least as long as the text, and it is empty exactly when the text is. |
| `Utf8.DecodeFirst` | app/kafka/consumer.py:29 | A well-formed leading sequence is 1 to 4 octets and fits in the input. |
| `Utf8.Decode` | app/kafka/consumer.py:29 | Decoded text is no longer than its bytes. |
| `Utf8.DecodeFirstOfEncodeChar` | app/kafka/consumer.py:29 | Decoding the octets of one character gives that character and its length back. |
| `Utf8.DecodeEncode` | app/kafka/producer.py:63 | decode(encode(s)) == s for every string. |
| `Utf8.EncodeCharOfDecodeFirst` | app/kafka/consumer.py:29 | A decoded character re-encodes to exactly the octets it was read from, so overlong forms are rejected. |
| `Utf8.DecodeCons` | app/kafka/consumer.py:29 | A decodable input starts with the encoding of its first decoded character, and the rest of the input decodes to the rest of the text. |
| `Utf8.EncodeDecode` | app/kafka/consumer.py:29 | When bytes decode, re-encoding the text gives those bytes back, so the decoder accepts only canonical UTF-8. |
| `Producer.PayloadBytes` | app/kafka/producer.py:59-65 | Bytes pass through unchanged. A string's payload decodes back to the string. A dict's payload decodes to the encoder's rendering of it. |
| `Producer.KeyBytes` | app/kafka/producer.py:71 | A key is sent exactly when it is present and non-empty, and its bytes decode back to it. |
| `Producer.BuildHeaders` | app/kafka/producer.py:14-20 | The result equals `WireOf`, and every header value decodes back to the value given. |
| `Producer.Record` | app/kafka/producer.py:59-75 | The record goes to the requested topic. It carries a key exactly when the key is present and non-empty, and the key bytes decode back to it. Bytes pass through. A string's payload and a dict's rendering decode back to the text. Headers are absent exactly for a missing or empty dictionary; otherwise each keeps its name, in order, and its value decodes back to the value given. |
| `Producer.WireOf` | app/kafka/producer.py:14-20 | None exactly for a missing or empty dictionary. Otherwise one pair per entry in iteration order, with the same names and the UTF-8 values. |
| `Producer.Status` | app/kafka/producer.py:79-85 | The status is "delivered" exactly when the publish is synchronous, and "enqueued" exactly when it is not. |
| `Producer.PublishCalls` | app/kafka/producer.py:69-84 | The record comes first. poll(0) follows only once the record is accepted. A flush with the caller's timeout happens exactly when the record is accepted and the publish is synchronous. |
| `Producer.BrokerProducer.constructor` | app/kafka/producer.py:26-27 | A new client holds the producer configuration and has had no calls. |
| `Producer.BrokerProducer.Send` | app/kafka/producer.py:69-75 | The record is appended to the client's calls. The outcome is the client's acceptance. |
| `Producer.BrokerProducer.PollEvents` | app/kafka/producer.py:77 | poll is appended with its timeout. |
| `Producer.BrokerProducer.FlushQueue` | app/kafka/producer.py:80 | flush is appended with its timeout. The outcome says whether it raised. |
| `Producer.ProducerManager.constructor` | app/kafka/producer.py:11 | There is no handle at first. |
| `Producer.ProducerManager.GetProducer` | app/kafka/producer.py:23-29 | An existing handle is returned unchanged. Otherwise a fresh handle with the producer configuration is created and stored. A failed construction stores nothing and reports the failure. |
| `Producer.ProducerManager.ProduceMessage` | app/kafka/producer.py:44-85 | The handle is kept or created as in GetProducer. The calls added are exactly PublishCalls of the request's record. The result is Ok exactly when a handle exists and the record is accepted, and then it names the requested topic with Status(sync). |
| `Producer.ProducerManager.CloseProducer` | app/kafka/producer.py:88-95 | The handle is always absent afterwards. With no handle nothing happens. With a handle, exactly one flush(5.0) is made, and its failure is returned to the caller. |
| `Consumer.Dispatched` | app/kafka/consumer.py:53-59 | A poll yields a record for the handler exactly when it returned a record without an error. |
| `Consumer.Delivered` | app/kafka/consumer.py:51-59 | At most one record is handed over per poll, and no error event reaches the handler. |
| `Consumer.DeliveredExactlyValid` | app/kafka/consumer.py:51-59 | The handler receives exactly the valid records, once each, in poll order. |
| `Consumer.DeliveredAppend` | app/kafka/consumer.py:51-59 | Successive runs of polls hand over their records one after the other. |
| `Consumer.HeaderText` | app/kafka/consumer.py:22 | An absent header value stays absent. Bytes decode exactly when they are UTF-8, and re-encoding the text gives them back. |
| `Consumer.HeaderMap` | app/kafka/consumer.py:21-22 | The dictionary is built exactly when every header value decodes. |
| `Consumer.HeaderMapKeys` | app/kafka/consumer.py:22 | The dictionary's keys are exactly the header names. |
| `Consumer.HeaderMapFirstError` | app/kafka/consumer.py:22 | A failure names the first header whose value does not decode. |
| `Consumer.HeaderMapLastWins` | app/kafka/consumer.py:22 | A name maps to the value of the last header with that name. |
| `Consumer.FieldText` | app/kafka/consumer.py:28-29 | An absent or empty key or value shows as absent. Otherwise it shows as its decoded text, which re-encodes to the bytes. It fails exactly when the bytes are not UTF-8. |
| `Consumer.DefaultHandler` | app/kafka/consumer.py:20-31 | The handler succeeds exactly when all headers, the key and the value decode. It then shows the record's topic, partition and offset, the decoded key and value, and the dictionary HeaderMap builds, keyed by exactly the header names. Failures are reported in evaluation order: headers, then key, then value. A header failure names the header that HeaderMap stops at. |
| `Consumer.PollCalls` | app/kafka/consumer.py:53 | n polls, each with a one-second timeout. |
| `Consumer.BrokerConsumer.constructor` | app/kafka/consumer.py:39 | A new client holds the consumer configuration and has had no calls. |
| `Consumer.BrokerConsumer.SubscribeTo` | app/kafka/consumer.py:40 | subscribe is appended with the topics. The outcome says whether it raised. |
| `Consumer.BrokerConsumer.PollOnce` | app/kafka/consumer.py:53 | A poll with a one-second timeout is appended, and the broker's answer is returned. |
| `Consumer.BrokerConsumer.CloseClient` | app/kafka/consumer.py:72 | close is appended. The outcome says whether it raised. |
| `Consumer.KafkaConsumerWorker.constructor` | app/kafka/consumer.py:13-18 | A new worker is not running and has no client and no thread. Without a handler it uses the default handler. |
| `Consumer.KafkaConsumerWorker.Start` | app/kafka/consumer.py:33-47 | A running worker is left unchanged. Otherwise the worker is running afterwards exactly when every step succeeds. Any failure after construction leaves a fresh client with the consumer configuration, which has subscribed to exactly ConsumerTopics. A failed construction keeps the old client and thread. It keeps `Valid`: the worker runs exactly while its thread is alive, and only with a client. So a live thread exists only after a successful start. No failure is raised. |
| `Consumer.KafkaConsumerWorker.Loop` | app/kafka/consumer.py:49-64 | While running, every poll outcome costs exactly one one-second poll. The handler receives exactly Delivered(polls): the valid records, in order. Empty polls, error events and exceptions change nothing else. A worker that is not running polls nothing. `Valid` is kept. |
| `Consumer.KafkaConsumerWorker.Stop` | app/kafka/consumer.py:66-75 | running is false afterwards. A live thread is joined. An existing client gets exactly one close, and its failure is not propagated. The client and thread stay recorded. `Valid` is kept, so the thread is no longer alive. |
| `Consumer.ConsumerRuntime.constructor` | app/kafka/consumer.py:78 | There is no worker at first. |
| `Consumer.ConsumerRuntime.StartConsumer` | app/kafka/consumer.py:81-85 | A worker is created only when there is none, with the given or default handler. An existing worker is reused and the new handler is ignored. Afterwards the worker runs exactly when it already ran or the start succeeded. The worker's `Start` guarantees carry over: a running worker keeps its client and thread. Otherwise a failed construction keeps the previous client and thread (none for a new worker). Any later step leaves a fresh client with the consumer configuration, subscribed to exactly ConsumerTopics. The thread is alive exactly after a successful start, and `Valid` is kept. |
| `Consumer.ConsumerRuntime.StopConsumer` | app/kafka/consumer.py:88-92 | The worker is absent afterwards. An existing worker is stopped first, so its client gets one close. With no worker nothing happens. |
| `Gateway.ResolveTopic` | app/main.py:55 | The request's topic is used when it is present and non-empty. Otherwise the default topic is used. |
| `Gateway.Receive` | app/kafka/consumer.py:53 | A polled record carries the produced record's topic, key, value and headers, with every header value present and no error. |
| `Gateway.FieldTextOfEncoding` | app/kafka/consumer.py:28-29 | The handler shows a UTF-8 encoded string as that string, or as absent when it is empty. |
| `Gateway.ReceivedHeadersShown` | app/kafka/consumer.py:21-22 | Headers carrying the UTF-8 values of a dictionary are shown as a dictionary with the same names. Each name has the value it was given. |
| `Gateway.PublishedTextIsConsumed` | app/kafka/producer.py:44-85 | A string published with a key and headers is shown by the default handler without error. It shows the same topic and the key (absent when the key was absent or empty). It shows the text (absent when empty) and every header under its name with its value. |

## Left out

- Python strings can hold lone surrogates, and `.encode("utf-8")` rejects them. Dafny's `char` cannot hold them, so that error path is not modelled.
- The internals of `json.dumps` are not modelled. The encoder is the parameter `dumps`. A dict that the encoder cannot serialise is not modelled, because the request schema only admits JSON objects.
- JSON numbers are integers in `Producer.Json`. Floating-point values are not modelled.
- `str(v)` on a header value is the identity, because the request schema types header values as strings.
- `_delivery_report` (app/kafka/producer.py:32-41) only logs. Delivery callbacks are not modelled, and neither is any logging.
- `flush` returns the number of messages still queued after its timeout. The source ignores that number, so the model does not represent it.
- Producer.ProducerManager.ProduceMessage: the flush of a synchronous publish and the `poll(0)` are taken not to raise. The source catches nothing around them either, so an exception there would reach the caller.
- Consumer.KafkaConsumerWorker.Stop: `join(timeout=5)` is taken to return after the loop has exited. The case where the loop is still polling after five seconds is a matter of thread timing and is not modelled.
- Consumer.KafkaConsumerWorker.Loop: the loop runs over a finite sequence of poll outcomes, which stands for the polls made before another thread clears `running`. The interleaving of the two threads is not modelled. Neither is the distinction between `KafkaException` and other exceptions, which differ only in the log line.
- Consumer.KafkaConsumerWorker.Start: a failure of the `threading.Thread` constructor is folded into `ThreadFails`, which models `start()` raising.
- Custom handlers are identified by name only. What they do with a record is not modelled, beyond receiving it. The record they receive is recorded in `handled`.
- The process-wide handles have no lock, and the source's first-call race on `_producer` is not modelled.
- Loading settings from the environment and `.env`, and `@lru_cache` on `get_settings`, are not modelled. Settings are an input, and `Config.Defaults` holds the declared defaults.
- The FastAPI routing, the startup and shutdown hooks, and the `/health` metadata probe in app/main.py are not modelled. Only the topic fallback of the publish endpoint is kept.
- The broker itself is not modelled. `Gateway.Receive` assumes lossless delivery: the consumer receives the produced record unchanged, at a partition and offset given as parameters. Only `Gateway.PublishedTextIsConsumed` relies on it.
