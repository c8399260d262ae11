/**
 * The settings-derived broker configuration: the client configuration maps
 * built from the settings, and the list of topics the consumer subscribes to.
 */
module Config {
  import opened Wrappers
  import opened Seqs

  /** The application settings, resolved once from the environment. */
  datatype Settings = Settings(
    appName: string,
    bootstrapServers: string,
    securityProtocol: string,
    saslMechanism: Option<string>,
    saslUsername: Option<string>,
    saslPassword: Option<string>,
    sslCaLocation: Option<string>,
    clientId: string,
    topicDefault: string,
    consumerGroupId: string,
    consumerAutoOffsetReset: string,
    enableIdempotence: bool,
    deliveryTimeoutMs: int,
    extraTopics: Option<string>)

  /**
   * The settings when no environment variable is set: a plaintext client of
   * a local broker with none of the optional security settings, subscribing
   * to the default topic only.
   */
  function Defaults(): (s: Settings)
    ensures KafkaCommon(s).Keys == {"bootstrap.servers", "client.id", "security.protocol"}
    ensures KafkaCommon(s)["bootstrap.servers"] == Str("localhost:9092")
    ensures KafkaCommon(s)["security.protocol"] == Str("PLAINTEXT")
    ensures KafkaProducer(s)["enable.idempotence"] == Flag(true)
    ensures KafkaProducer(s)["delivery.timeout.ms"] == Int(120000)
    ensures KafkaConsumer(s)["group.id"] == Str("msk-fastapi-group")
    ensures KafkaConsumer(s)["auto.offset.reset"] == Str("earliest")
    ensures ConsumerTopics(s) == ["events"]
  {
    Settings(
      "MSK FastAPI", "localhost:9092", "PLAINTEXT", None, None, None, None,
      "msk-fastapi", "events", "msk-fastapi-group", "earliest", true, 120000, None)
  }

  /** A value in a broker client configuration. */
  datatype ConfValue = Str(s: string) | Flag(b: bool) | Int(i: int)

  type Conf = map<string, ConfValue>

  /** Python truthiness of an optional string: present and non-empty. */
  predicate Truthy(o: Option<string>) {
    o.Some? && o.value != ""
  }

  /** The settings that every client needs; an optional one appears only when it is set. */
  function KafkaCommon(s: Settings): (conf: Conf)
    ensures "bootstrap.servers" in conf && conf["bootstrap.servers"] == Str(s.bootstrapServers)
    ensures "client.id" in conf && conf["client.id"] == Str(s.clientId)
    ensures "security.protocol" in conf && conf["security.protocol"] == Str(s.securityProtocol)
    ensures ("sasl.mechanism" in conf) == Truthy(s.saslMechanism)
    ensures "sasl.mechanism" in conf ==> conf["sasl.mechanism"] == Str(s.saslMechanism.value)
    ensures ("sasl.username" in conf) == Truthy(s.saslUsername)
    ensures "sasl.username" in conf ==> conf["sasl.username"] == Str(s.saslUsername.value)
    ensures ("sasl.password" in conf) == Truthy(s.saslPassword)
    ensures "sasl.password" in conf ==> conf["sasl.password"] == Str(s.saslPassword.value)
    ensures ("ssl.ca.location" in conf) == Truthy(s.sslCaLocation)
    ensures "ssl.ca.location" in conf ==> conf["ssl.ca.location"] == Str(s.sslCaLocation.value)
    ensures ("ssl.endpoint.identification.algorithm" in conf) == ("ssl.ca.location" in conf)
    ensures "ssl.endpoint.identification.algorithm" in conf ==>
              conf["ssl.endpoint.identification.algorithm"] == Str("https")
    ensures conf.Keys <= CommonKeys()
  {
    var conf := map[
      "bootstrap.servers" := Str(s.bootstrapServers),
      "client.id" := Str(s.clientId),
      "security.protocol" := Str(s.securityProtocol)];
    var conf := if Truthy(s.saslMechanism) then conf["sasl.mechanism" := Str(s.saslMechanism.value)] else conf;
    var conf := if Truthy(s.saslUsername) then conf["sasl.username" := Str(s.saslUsername.value)] else conf;
    var conf := if Truthy(s.saslPassword) then conf["sasl.password" := Str(s.saslPassword.value)] else conf;
    if Truthy(s.sslCaLocation) then
      conf["ssl.ca.location" := Str(s.sslCaLocation.value)]["ssl.endpoint.identification.algorithm" := Str("https")]
    else conf
  }

  /** Every key the common configuration can hold. */
  function CommonKeys(): set<string> {
    {"bootstrap.servers", "client.id", "security.protocol", "sasl.mechanism", "sasl.username",
     "sasl.password", "ssl.ca.location", "ssl.endpoint.identification.algorithm"}
  }

  /** The producer configuration: the common one plus idempotence, acks and the delivery timeout. */
  function KafkaProducer(s: Settings): (conf: Conf)
    ensures conf.Keys == KafkaCommon(s).Keys + {"enable.idempotence", "acks", "delivery.timeout.ms"}
    ensures forall k :: k in KafkaCommon(s) ==> conf[k] == KafkaCommon(s)[k]
    ensures conf["enable.idempotence"] == Flag(s.enableIdempotence)
    ensures conf["acks"] == Str("all")
    ensures conf["delivery.timeout.ms"] == Int(s.deliveryTimeoutMs)
  {
    KafkaCommon(s) + map[
      "enable.idempotence" := Flag(s.enableIdempotence),
      "acks" := Str("all"),
      "delivery.timeout.ms" := Int(s.deliveryTimeoutMs)]
  }

  /** The consumer configuration: the common one plus group, offset reset and auto-commit. */
  function KafkaConsumer(s: Settings): (conf: Conf)
    ensures conf.Keys == KafkaCommon(s).Keys + {"group.id", "auto.offset.reset", "enable.auto.commit"}
    ensures forall k :: k in KafkaCommon(s) ==> conf[k] == KafkaCommon(s)[k]
    ensures conf["group.id"] == Str(s.consumerGroupId)
    ensures conf["auto.offset.reset"] == Str(s.consumerAutoOffsetReset)
    ensures conf["enable.auto.commit"] == Flag(true)
  {
    KafkaCommon(s) + map[
      "group.id" := Str(s.consumerGroupId),
      "auto.offset.reset" := Str(s.consumerAutoOffsetReset),
      "enable.auto.commit" := Flag(true)]
  }

  /** Python's `str.isspace()` for one character: the characters `str.strip()` removes. */
  predicate IsSpace(c: char): (b: bool)
    // the separator of the topic list is never whitespace
    ensures c == ',' ==> !b
  {
    var n := c as int;
    (0x09 <= n <= 0x0D) || (0x1C <= n <= 0x20) || n == 0x85 || n == 0xA0 || n == 0x1680
    || (0x2000 <= n <= 0x200A) || n == 0x2028 || n == 0x2029 || n == 0x202F || n == 0x205F
    || n == 0x3000
  }

  /** Among ASCII characters: space, tab, line feed, carriage return, vertical tab, form feed and the four separators. */
  lemma IsSpaceAscii(c: char)
    requires c as int < 0x80
    ensures IsSpace(c) <==> c == ' ' || c == '\t' || c == '\n' || c == '\r' || c as int in {0x0B, 0x0C, 0x1C, 0x1D, 0x1E, 0x1F}
  {
  }

  predicate AllSpace(s: string) {
    forall i :: 0 <= i < |s| ==> IsSpace(s[i])
  }

  /** `s` with its leading whitespace removed. */
  function StripLeading(s: string): (r: string)
    ensures |r| <= |s| && r == s[|s| - |r|..]
    ensures AllSpace(s[..|s| - |r|])
    ensures r == [] || !IsSpace(r[0])
  {
    if s != [] && IsSpace(s[0]) then StripLeading(s[1..]) else s
  }

  /** `s` with its trailing whitespace removed. */
  function StripTrailing(s: string): (r: string)
    ensures |r| <= |s| && r == s[..|r|]
    ensures AllSpace(s[|r|..])
    ensures r == [] || !IsSpace(r[|r| - 1])
  {
    if s != [] && IsSpace(s[|s| - 1]) then
      var front := s[..|s| - 1];
      var r := StripTrailing(front);
      assert r == s[..|r|] && s[|r|..] == front[|r|..] + [s[|s| - 1]];
      r
    else s
  }

  /** Python's `str.strip()`: the part of `s` between its leading and trailing whitespace. */
  function Strip(s: string): (r: string)
    ensures r == [] || (!IsSpace(r[0]) && !IsSpace(r[|r| - 1]))
    ensures r == [] <==> AllSpace(s)
  {
    var left := StripLeading(s);
    var r := StripTrailing(left);
    var i, j := |s| - |left|, |s| - |left| + |r|;
    assert r == s[i..j];
    assert s[j..] == left[|r|..];
    assert r == [] ==> AllSpace(s) by {
      if r == [] {
        assert left == [];
        assert s[..i] == s;
      }
    }
    r
  }

  /** Strip removes only whitespace, and only at the two ends: its result is a slice of the input. */
  lemma StripSlice(s: string) returns (i: nat, j: nat)
    ensures i <= j <= |s| && Strip(s) == s[i..j]
    ensures AllSpace(s[..i]) && AllSpace(s[j..])
  {
    var left := StripLeading(s);
    var r := StripTrailing(left);
    i, j := |s| - |left|, |s| - |left| + |r|;
    assert s[j..] == left[|r|..];
  }

  /** Python's `s.split(sep)`: the pieces between separators, always at least one. */
  function Split(s: string, sep: char): (pieces: seq<string>)
    ensures forall p :: p in pieces ==> sep !in p
  {
    if s == [] then [[]]
    else
      var rest := Split(s[1..], sep);
      assert s == [s[0]] + s[1..];
      if s[0] == sep then [[]] + rest
      else [[s[0]] + rest[0]] + rest[1..]
  }

  /** There is one more piece than there are separators. */
  lemma {:induction false} SplitCount(s: string, sep: char)
    ensures |Split(s, sep)| == multiset(s)[sep] + 1
  {
    if s != [] {
      SplitCount(s[1..], sep);
      assert s == [s[0]] + s[1..];
      assert multiset(s) == multiset([s[0]]) + multiset(s[1..]);
    }
  }

  /** Python's `sep.join(pieces)`, the inverse of Split. */
  function Join(pieces: seq<string>, sep: char): string
    requires |pieces| >= 1
  {
    if |pieces| == 1 then pieces[0] else pieces[0] + [sep] + Join(pieces[1..], sep)
  }

  /** Splitting loses nothing: joining the pieces with the separator gives the string back. */
  lemma {:induction false} JoinSplit(s: string, sep: char)
    ensures Join(Split(s, sep), sep) == s
  {
    if s != [] {
      var rest := Split(s[1..], sep);
      var pieces := Split(s, sep);
      JoinSplit(s[1..], sep);
      assert s == [s[0]] + s[1..];
      if s[0] == sep {
        assert pieces[0] == [] && pieces[1..] == rest;
        assert Join(pieces, sep) == [sep] + Join(rest, sep);
      } else if |rest| == 1 {
        assert pieces == [[s[0]] + rest[0]];
      } else {
        assert pieces[0] == [s[0]] + rest[0] && pieces[1..] == rest[1..];
        assert Join(rest, sep) == rest[0] + [sep] + Join(rest[1..], sep);
        assert Join(pieces, sep) == pieces[0] + [sep] + Join(rest[1..], sep);
      }
    }
  }

  /** A comma-separated piece becomes a topic when its stripped form is not empty. */
  function StrippedTopic(piece: string): (t: Option<string>)
    ensures t.Some? <==> !AllSpace(piece)
    ensures t.Some? ==> t.value == Strip(piece)
  {
    var stripped := Strip(piece);
    if stripped == "" then None else Some(stripped)
  }

  /**
   * The comprehension over the comma-separated extra topics: each topic is
   * non-empty and has no surrounding whitespace.
   */
  function ExtraTopics(raw: string): (topics: seq<string>)
    ensures forall t :: t in topics ==> Trimmed(t)
  {
    var pieces := Split(raw, ',');
    var topics := FilterMap(StrippedTopic, pieces);
    assert forall t :: t in topics ==> Trimmed(t) by {
      forall t | t in topics ensures Trimmed(t) {
        FilterMapMember(StrippedTopic, pieces, t);
      }
    }
    topics
  }

  /** The topics the consumer subscribes to: the default one, then the non-blank extra ones. */
  function ConsumerTopics(s: Settings): (topics: seq<string>)
    ensures |topics| >= 1 && topics[0] == s.topicDefault
    ensures !Truthy(s.extraTopics) ==> topics == [s.topicDefault]
  {
    [s.topicDefault] + if Truthy(s.extraTopics) then ExtraTopics(s.extraTopics.value) else []
  }

  /** There is at most one extra topic per comma-separated piece. */
  lemma ExtraTopicsCount(raw: string)
    ensures |ExtraTopics(raw)| <= multiset(raw)[','] + 1
  {
    SplitCount(raw, ',');
  }

  /** The subscription list is the default topic followed by the extra topics. */
  lemma ConsumerTopicsTail(s: Settings)
    requires Truthy(s.extraTopics)
    ensures ConsumerTopics(s)[1..] == ExtraTopics(s.extraTopics.value)
  {
  }

  /**
   * The extra topics are the stripped non-blank comma-separated pieces, in
   * their left-to-right order, one per such piece and no others.
   */
  lemma ExtraTopicsInOrder(raw: string)
    ensures var pieces := Split(raw, ',');
            var idx := KeptIndices(StrippedTopic, pieces);
            var extra := ExtraTopics(raw);
            && |extra| == |idx|
            && (forall k :: 0 <= k < |idx| ==> extra[k] == Strip(pieces[idx[k]]))
            && (forall k :: 0 <= k < |idx| ==> Trimmed(extra[k]))
            && (forall k, l :: 0 <= k < l < |idx| ==> idx[k] < idx[l])
            && (forall i :: 0 <= i < |pieces| ==> (i in idx <==> !AllSpace(pieces[i])))
  {
    var pieces := Split(raw, ',');
    FilterMapAtKeptIndices(StrippedTopic, pieces);
  }

  /** Non-empty, with no whitespace at either end. */
  predicate Trimmed(t: string) {
    t != [] && !IsSpace(t[0]) && !IsSpace(t[|t| - 1])
  }

  /** Every topic after the first is non-empty and has no surrounding whitespace. */
  lemma ExtraTopicsTrimmed(s: Settings)
    ensures forall i :: 1 <= i < |ConsumerTopics(s)| ==> Trimmed(ConsumerTopics(s)[i])
  {
  }

  /** The number of topics is one plus the number of non-blank pieces; nothing is de-duplicated. */
  lemma ConsumerTopicsLength(s: Settings)
    requires Truthy(s.extraTopics)
    ensures |ConsumerTopics(s)| == 1 + CountKept(StrippedTopic, Split(s.extraTopics.value, ','))
  {
    FilterMapLength(StrippedTopic, Split(s.extraTopics.value, ','));
  }

  /** One step of Split: a separator starts a new piece, any other character extends the first. */
  lemma SplitCons(c: char, t: string, sep: char)
    ensures Split([c] + t, sep) ==
              if c == sep then [[]] + Split(t, sep) else [[c] + Split(t, sep)[0]] + Split(t, sep)[1..]
  {
    assert ([c] + t)[1..] == t;
  }

  /** Splitting `"a, b,,c"` at commas gives four pieces, one of them empty (for any three non-comma characters). */
  lemma SplitExample(a: char, b: char, c: char)
    requires a != ',' && b != ',' && c != ','
    ensures Split([a, ',', ' ', b, ',', ',', c], ',') == [[a], [' ', b], [], [c]]
  {
    var s := [a, ',', ' ', b, ',', ',', c];
    assert Split(s[6..], ',') == [[c]] by {
      SplitCons(c, [], ',');
      assert s[6..] == [c] + [];
    }
    assert Split(s[5..], ',') == [[], [c]] by {
      SplitCons(',', s[6..], ',');
      assert s[5..] == [','] + s[6..];
    }
    assert Split(s[4..], ',') == [[], [], [c]] by {
      SplitCons(',', s[5..], ',');
      assert s[4..] == [','] + s[5..];
    }
    assert Split(s[3..], ',') == [[b], [], [c]] by {
      SplitCons(b, s[4..], ',');
      assert s[3..] == [b] + s[4..] && [b] + [] == [b];
    }
    assert Split(s[2..], ',') == [[' ', b], [], [c]] by {
      SplitCons(' ', s[3..], ',');
      assert s[2..] == [' '] + s[3..] && [' '] + [b] == [' ', b];
    }
    assert Split(s[1..], ',') == [[], [' ', b], [], [c]] by {
      SplitCons(',', s[2..], ',');
      assert s[1..] == [','] + s[2..];
    }
    SplitCons(a, s[1..], ',');
    assert s == [a] + s[1..] && [a] + [] == [a];
  }

  /** A one-character topic, with or without a leading space, strips to itself. */
  lemma StripOneChar(piece: string, c: char)
    requires !IsSpace(c) && (piece == [c] || piece == [' ', c])
    ensures StrippedTopic(piece) == Some([c])
  {
    assert StripLeading([c]) == [c] && StripTrailing([c]) == [c];
    assert StripLeading([' ', c]) == StripLeading([c]) by {
      assert IsSpace(' ') && [' ', c][1..] == [c];
    }
  }

  /** The pieces a, " b", "" and c give the topics a, b and c: the blank piece is dropped, the others stripped. */
  lemma TopicsOfPieces(x1: string, x2: string, x3: string, x4: string, a: char, b: char, c: char)
    requires x1 == [a] && x2 == [' ', b] && x3 == [] && x4 == [c]
    requires !IsSpace(a) && !IsSpace(b) && !IsSpace(c)
    ensures FilterMap(StrippedTopic, [x1, x2, x3, x4]) == [[a], [b], [c]]
  {
    StripOneChar(x1, a);
    StripOneChar(x2, b);
    StripOneChar(x4, c);
    FilterMapFour(StrippedTopic, x1, x2, x3, x4, [a], [b], [c]);
  }

  /** `"a, b,,c"` gives the topics a, b and c (for any three non-blank, non-comma characters). */
  lemma ExtraTopicsExample(raw: string, a: char, b: char, c: char)
    requires raw == [a, ',', ' ', b, ',', ',', c]
    requires a != ',' && b != ',' && c != ','
    requires !IsSpace(a) && !IsSpace(b) && !IsSpace(c)
    ensures ExtraTopics(raw) == [[a], [b], [c]]
  {
    SplitExample(a, b, c);
    TopicsOfPieces([a], [' ', b], [], [c], a, b, c);
  }

  /**
   * With `extra_topics = "a, b,,c"` the consumer subscribes to the default
   * topic, then a, b and c (for any three non-blank, non-comma characters).
   */
  lemma ConsumerTopicsExample(s: Settings, a: char, b: char, c: char)
    requires s.extraTopics == Some([a, ',', ' ', b, ',', ',', c])
    requires a != ',' && b != ',' && c != ','
    requires !IsSpace(a) && !IsSpace(b) && !IsSpace(c)
    ensures ConsumerTopics(s) == [s.topicDefault, [a], [b], [c]]
  {
    ExtraTopicsExample(s.extraTopics.value, a, b, c);
  }
}
