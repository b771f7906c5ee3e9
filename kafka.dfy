/** kafka/kafka.go: building a Kafka client configuration, the broker list
    and the default topic from an application's secondary port and its
    tuning section. The Kafka client library's own configuration record
    (sarama.Config) is reduced to the settings this package assigns; the
    library's starting values are a parameter. */
module Kafka {
  import opened Wrappers
  import opened GoTypes
  import opened GoStrings
  import opened AppConfig
  import opened SaramaTuning

  /** time.Second and time.Millisecond, in nanoseconds. */
  const Second: int64 := 1_000_000_000
  const Millisecond: int64 := 1_000_000

  /** Largest magnitudes that scale without wrapping around. */
  const MaxSeconds: int := 9_223_372_036
  const MaxMilliseconds: int := 9_223_372_036_854

  /** time.Duration(n) * unit: an int64 product that wraps around on overflow. */
  function Scale(n: int64, unit: int64): (d: int64)
    ensures (n as int * unit as int - d as int) % Int64Modulus == 0
  {
    Wrap64(n as int * unit as int)
  }

  /** The settings of a Kafka client configuration that this package assigns;
      the durations are in nanoseconds. */
  datatype KafkaConfig = KafkaConfig(
    clientID: string,
    channelBufferSize: int64,
    producerReturnSuccesses: bool,
    producerRetryMax: int64,
    producerRequiredAcks: RequiredAcks,
    producerTimeout: int64,
    producerFlushFrequency: int64,
    netTLSEnable: bool,
    netTLSConfig: Option<TLSConfig>)

  /** What NewKafkaConfig hands back: the configuration, the brokers and the
      default topic. */
  datatype KafkaSetup = KafkaSetup(config: KafkaConfig, brokers: seq<string>, topic: string)

  /** The two errors of NewKafkaConfigWith. */
  datatype BuildError = MissingLocation(port: PortName) | MissingOptions(port: PortName)
  {
    /** The error text, which names the port in parentheses at its end. */
    function Message(): (r: string)
      ensures |r| >= |port| + 2 && r[|r| - |port| - 2..] == "(" + port + ")"
    {
      match this
      case MissingLocation(p) => "missing matched primaryport location(" + p + ")"
      case MissingOptions(p) => "missing options for secondary port (" + p + ")"
    }
  }

  /** The client configuration the tuning section describes. The scalar
      settings are copied; the timeout is the number of seconds and the flush
      frequency the number of milliseconds, exact while the product fits in
      64 bits and otherwise wrapped around modulo 2^64. */
  function ConfigOf(tuning: SaramaSection): (c: KafkaConfig)
    ensures && c.clientID == tuning.clientID
            && c.channelBufferSize == tuning.channelBufferSize
            && c.producerReturnSuccesses == tuning.producerReturnSuccesses
            && c.producerRetryMax == tuning.producerRetryMax
            && c.producerRequiredAcks == tuning.producerRequiredAcks
            && c.netTLSEnable == tuning.netTLSEnable
            && c.netTLSConfig == tuning.netTLSConfig
    ensures -MaxSeconds <= tuning.producerTimeout as int <= MaxSeconds ==>
      c.producerTimeout as int == tuning.producerTimeout as int * 1_000_000_000
    ensures -MaxMilliseconds <= tuning.producerFlushFrequency as int <= MaxMilliseconds ==>
      c.producerFlushFrequency as int == tuning.producerFlushFrequency as int * 1_000_000
    ensures (tuning.producerTimeout as int * 1_000_000_000 - c.producerTimeout as int) % Int64Modulus == 0
    ensures (tuning.producerFlushFrequency as int * 1_000_000 - c.producerFlushFrequency as int) % Int64Modulus == 0
  {
    KafkaConfig(
      tuning.clientID, tuning.channelBufferSize, tuning.producerReturnSuccesses,
      tuning.producerRetryMax, tuning.producerRequiredAcks,
      Scale(tuning.producerTimeout, Second), Scale(tuning.producerFlushFrequency, Millisecond),
      tuning.netTLSEnable, tuning.netTLSConfig)
  }

  /** The result NewKafkaConfig specifies: the configuration of the tuning
      section, the comma-separated brokers of the address and the "topic"
      option. */
  function ClientSetup(location: Location, options: KV, tuning: SaramaSection, toString: Value -> string): (r: KafkaSetup)
    ensures r.config == ConfigOf(tuning)
    ensures |r.brokers| >= 1 && Join(r.brokers, ',') == location.address
    ensures forall i :: 0 <= i < |r.brokers| ==> ',' !in r.brokers[i]
    ensures r.topic == toString(options.Get("topic"))
  {
    JoinSplit(location.address, ',');
    SplitPiecesAreSeparatorFree(location.address, ',');
    KafkaSetup(ConfigOf(tuning), Split(location.address, ','), options.GetString("topic", toString))
  }

  /** NewKafkaConfig: starts from the library's configuration and overwrites
      each setting it models, the retry limit twice, in the order of the
      source. Its error result is always nil, so it always succeeds, and
      none of the modelled settings keeps its starting value. */
  method NewKafkaConfig(
    location: Location, options: KV, tuning: SaramaConfig,
    toString: Value -> string, libraryDefaults: KafkaConfig)
    returns (r: KafkaSetup)
    ensures r == ClientSetup(location, options, tuning.Value(), toString)
  {
    var conf := libraryDefaults;
    conf := conf.(producerRetryMax := tuning.producerRetryMax);
    conf := conf.(clientID := tuning.clientID);
    conf := conf.(channelBufferSize := tuning.channelBufferSize);
    conf := conf.(producerReturnSuccesses := tuning.producerReturnSuccesses);
    conf := conf.(producerRetryMax := tuning.producerRetryMax);
    conf := conf.(producerRequiredAcks := tuning.producerRequiredAcks);
    conf := conf.(producerTimeout := Scale(tuning.producerTimeout, Second));
    conf := conf.(producerFlushFrequency := Scale(tuning.producerFlushFrequency, Millisecond));
    conf := conf.(netTLSEnable := tuning.netTLSEnable);
    conf := conf.(netTLSConfig := tuning.netTLSConfig);
    r := KafkaSetup(conf, Split(location.address, ','), options.GetString("topic", toString));
  }

  /** NewKafkaConfigWith: the location comes from the port's matched primary
      port and the options from the secondary port itself. A missing location
      is reported first, then nil options; otherwise the setup is built. A
      location is only found through an existing secondary port, so reading
      its options never dereferences nil. */
  function NewKafkaConfigWith(portName: PortName, app: Application, tuning: SaramaSection, toString: Value -> string)
    : (r: Result<KafkaSetup, BuildError>)
    ensures r == Failure(MissingLocation(portName)) <==> GetMatchedPrimaryPortLocation(app, portName).None?
    ensures r == Failure(MissingOptions(portName)) <==>
      && GetMatchedPrimaryPortLocation(app, portName).Some?
      && GetSecondaryPort(app, portName).Some?
      && GetSecondaryPort(app, portName).value.options.Nil?
    ensures r.Success? <==>
      && app.spec.secondaryPorts.Some?
      && portName in app.spec.secondaryPorts.value
      && app.spec.secondaryPorts.value[portName].matchedPrimaryPort.Some?
      && app.spec.secondaryPorts.value[portName].matchedPrimaryPort.value.location.Some?
      && app.spec.secondaryPorts.value[portName].options.Bag?
    ensures r.Success? ==>
      var port := app.spec.secondaryPorts.value[portName];
      && r.value.brokers == Split(port.matchedPrimaryPort.value.location.value.address, ',')
      && r.value.topic == toString(port.options.Get("topic"))
      && r.value.config == ConfigOf(tuning)
  {
    var location := GetMatchedPrimaryPortLocation(app, portName);
    if location.None? then Failure(MissingLocation(portName))
    else
      var options := GetSecondaryPort(app, portName).value.options;
      if options.Nil? then Failure(MissingOptions(portName))
      else Success(ClientSetup(location.value, options, tuning, toString))
  }

  /** MustKafkaConfigWith: NewKafkaConfigWith with its error turned into a
      panic, whose message (the Failure here) is the error's text. */
  function MustKafkaConfigWith(portName: PortName, app: Application, tuning: SaramaSection, toString: Value -> string)
    : (r: Result<KafkaSetup, string>)
    ensures r.Success? <==> NewKafkaConfigWith(portName, app, tuning, toString).Success?
    ensures r.Success? ==> r.value == NewKafkaConfigWith(portName, app, tuning, toString).value
    ensures r.Failure? ==> r.error == NewKafkaConfigWith(portName, app, tuning, toString).error.Message()
  {
    match NewKafkaConfigWith(portName, app, tuning, toString)
    case Success(setup) => Success(setup)
    case Failure(e) => Failure(e.Message())
  }

  /** The brokers are the comma-separated pieces of the address: one more
      than its commas, none containing a comma, and joined back with commas
      they give the address. */
  lemma BrokersSplitTheAddress(location: Location, options: KV, tuning: SaramaSection, toString: Value -> string)
    ensures var brokers := ClientSetup(location, options, tuning, toString).brokers;
      && |brokers| == Count(location.address, ',') + 1
      && (forall i :: 0 <= i < |brokers| ==> ',' !in brokers[i])
      && Join(brokers, ',') == location.address
  {
    SplitCount(location.address, ',');
    SplitPiecesAreSeparatorFree(location.address, ',');
    JoinSplit(location.address, ',');
  }

  /** An address without a comma is a single broker. */
  lemma SingleBroker(location: Location, options: KV, tuning: SaramaSection, toString: Value -> string)
    requires ',' !in location.address
    ensures ClientSetup(location, options, tuning, toString).brokers == [location.address]
  {
    SplitOfSeparatorFree(location.address, ',');
  }

  /** The default topic is the "topic" option, and no other option affects
      the setup. */
  lemma TopicIsTheTopicOption(
    location: Location, entries: map<string, Value>, key: string, v: Value,
    tuning: SaramaSection, toString: Value -> string)
    requires key != "topic"
    ensures ClientSetup(location, Bag(entries), tuning, toString).topic ==
      (if "topic" in entries then toString(entries["topic"]) else toString(Null))
    ensures ClientSetup(location, Bag(entries[key := v]), tuning, toString) ==
      ClientSetup(location, Bag(entries), tuning, toString)
  {
    assert Bag(entries[key := v]).Get("topic") == Bag(entries).Get("topic");
  }

  /** An all-zero tuning section with TLS disabled, once completed, yields
      the documented client defaults: client "sarama", 256 buffered
      messages, 3 retries, acknowledgement by the local broker, a 10 second
      timeout and a 500 millisecond flush. */
  lemma CompletedZeroTuningGivesDefaults(s: SaramaSection, k8sTLS: Result<TLSConfig, string>)
    requires s.clientID == "" && s.channelBufferSize == 0 && s.producerRetryMax == 0
    requires s.producerRequiredAcks == NoResponse && s.producerTimeout == 0 && s.producerFlushFrequency == 0
    requires !s.netTLSEnable
    ensures var c := ConfigOf(Completed(s, k8sTLS));
      && c.clientID == "sarama"
      && c.channelBufferSize == 256
      && c.producerRetryMax == 3
      && c.producerRequiredAcks == WaitForLocal
      && c.producerTimeout == 10_000_000_000
      && c.producerFlushFrequency == 500_000_000
      && !c.netTLSEnable
      && c.netTLSConfig == s.netTLSConfig
  {
    CompletedDefaults(s, k8sTLS);
    CompletedWithoutTLS(s, k8sTLS, k8sTLS);
    CompletedKeepsNoOpFields(s, k8sTLS);
  }
}
