/**
 * How the two sides meet: the publish endpoint's choice of topic, and what
 * the consumer's default handler shows for a record the producer published.
 */
module Gateway {
  import opened Wrappers
  import opened Utf8
  import Config
  import Producer
  import Consumer

  /** The topic of a publish request: its own when present and non-empty, the default topic otherwise. */
  function ResolveTopic(requested: Option<string>, s: Config.Settings): (topic: string)
    ensures Config.Truthy(requested) ==> topic == requested.value
    ensures !Config.Truthy(requested) ==> topic == s.topicDefault
  {
    if Config.Truthy(requested) then requested.value else s.topicDefault
  }

  /** No two headers share a name, as in a dictionary. */
  predicate DistinctNames(hs: Producer.Headers) {
    forall i, j :: 0 <= i < j < |hs| ==> hs[i].0 != hs[j].0
  }

  /**
   * The record a consumer receives for a produced record, at the partition
   * and offset the broker assigned. Every header carries a value.
   */
  function Receive(record: Producer.ProducerCall, partition: int, offset: int): (m: Consumer.Message)
    requires record.Produce?
    ensures m.topic == record.topic && m.key == record.key && m.value == Some(record.value)
    ensures m.headers.None? <==> record.headers.None?
    ensures m.headers.Some? ==> |m.headers.value| == |record.headers.value|
    ensures m.headers.Some? ==> forall i :: 0 <= i < |m.headers.value| ==>
                m.headers.value[i] == (record.headers.value[i].0, Some(record.headers.value[i].1))
    ensures m.error.None?
  {
    var hs := if record.headers.None? then None
              else Some(seq(|record.headers.value|, i requires 0 <= i < |record.headers.value| =>
                              (record.headers.value[i].0, Some(record.headers.value[i].1))));
    Consumer.Message(record.topic, partition, offset, record.key, Some(record.value), hs, None)
  }

  /** A UTF-8 encoded string is shown by the handler as that string, or as absent when it is empty. */
  lemma FieldTextOfEncoding(s: string)
    ensures Consumer.FieldText(Some(Encode(s))) == Ok(if s == "" then None else Some(s))
  {
    DecodeEncode(s);
  }

  /**
   * A record carrying the UTF-8 encoded values of a dictionary's headers is
   * shown with a dictionary of the same names, each with the value it was given.
   */
  lemma ReceivedHeadersShown(hs: Producer.Headers, m: Consumer.Message)
    requires DistinctNames(hs)
    requires Consumer.HeaderList(m) == seq(|hs|, i requires 0 <= i < |hs| => (hs[i].0, Some(Encode(hs[i].1))))
    ensures Consumer.HeaderMap(Consumer.HeaderList(m)).Ok?
    ensures Consumer.HeaderMap(Consumer.HeaderList(m)).value.Keys == set i | 0 <= i < |hs| :: hs[i].0
    ensures forall i :: 0 <= i < |hs| ==>
              hs[i].0 in Consumer.HeaderMap(Consumer.HeaderList(m)).value &&
              Consumer.HeaderMap(Consumer.HeaderList(m)).value[hs[i].0] == Some(hs[i].1)
  {
    var hl := Consumer.HeaderList(m);
    forall i | 0 <= i < |hl| ensures Consumer.HeaderText(hl[i].1) == Ok(Some(hs[i].1)) {
      DecodeEncode(hs[i].1);
    }
    assert forall i :: 0 <= i < |hl| ==> Consumer.HeaderDecodes(hl[i]);
    Consumer.HeaderMapKeys(hl);
    assert (set i | 0 <= i < |hl| :: hl[i].0) == set i | 0 <= i < |hs| :: hs[i].0;
    forall i | 0 <= i < |hs|
      ensures hs[i].0 in Consumer.HeaderMap(hl).value && Consumer.HeaderMap(hl).value[hs[i].0] == Some(hs[i].1)
    {
      Consumer.HeaderMapLastWins(hl, i);
    }
  }

  /**
   * End to end: a string published with a key and headers is consumed by the
   * default handler without error, and it shows the topic, the key (absent
   * when the key was absent or empty), the text (absent when empty) and each
   * header under its name with the value it was given.
   */
  lemma PublishedTextIsConsumed(topic: string, text: string, key: Option<string>,
                                headers: Option<Producer.Headers>, dumps: Producer.JsonObject -> string,
                                partition: int, offset: int)
    requires headers.Some? ==> DistinctNames(headers.value)
    ensures var record := Producer.Record(topic, Producer.Str(text), key, headers, dumps);
            var shown := Consumer.DefaultHandler(Receive(record, partition, offset));
            && shown.Ok?
            && shown.value.topic == topic
            && shown.value.key == (if Config.Truthy(key) then key else None)
            && shown.value.value == (if text == "" then None else Some(text))
            && (headers.None? ==> shown.value.headers == map[])
            && (headers.Some? ==> shown.value.headers.Keys == set i | 0 <= i < |headers.value| :: headers.value[i].0)
            && (headers.Some? ==> forall i :: 0 <= i < |headers.value| ==>
                  shown.value.headers[headers.value[i].0] == Some(headers.value[i].1))
  {
    var record := Producer.Record(topic, Producer.Str(text), key, headers, dumps);
    var m := Receive(record, partition, offset);
    assert Consumer.FieldText(m.value) == Ok(if text == "" then None else Some(text)) by {
      FieldTextOfEncoding(text);
    }
    assert Consumer.FieldText(m.key) == Ok(if Config.Truthy(key) then key else None) by {
      if Config.Truthy(key) {
        FieldTextOfEncoding(key.value);
      }
    }
    var hl := Consumer.HeaderList(m);
    if headers.Some? && headers.value != [] {
      var hs := headers.value;
      assert hl == seq(|hs|, i requires 0 <= i < |hs| => (hs[i].0, Some(Encode(hs[i].1))));
      ReceivedHeadersShown(hs, m);
    } else {
      assert hl == [];
    }
  }
}
