/** The Kafka tuning section of aconfig/sarama_config.go: the SaramaConfig
    record, its in-place completion and the file-based TLS configuration.
    Loading certificates, reading files and fetching the Kubernetes secret are
    outside this model: their outcomes are parameters, and a Failure outcome
    stands for the panic the source raises. */
module SaramaTuning {
  import opened Wrappers
  import opened GoTypes

  /** sarama.RequiredAcks (an int16). */
  type RequiredAcks = int16

  const NoResponse: RequiredAcks := 0
  const WaitForLocal: RequiredAcks := 1
  const WaitForAll: RequiredAcks := -1

  const DefaultKafkaClientID: string := "sarama"
  const DefaultKafkaChannelBufferSize: int64 := 256
  const DefaultProducerRetryMax: int64 := 3
  const DefaultProducerTimeout: int64 := 10
  const DefaultProducerFlushFrequency: int64 := 500

  /** A client certificate with its private key, as PEM text. */
  datatype KeyPair = KeyPair(certificatePem: string, keyPem: string)

  /** The parts of a tls.Config the source sets. */
  datatype TLSConfig = TLSConfig(certificates: seq<KeyPair>, rootCAsPem: string, insecureSkipVerify: bool)

  datatype SaramaSection = SaramaSection(
    clientID: string,
    channelBufferSize: int64,
    producerReturnSuccesses: bool,
    producerRetryMax: int64,
    producerRequiredAcks: RequiredAcks,
    producerTimeout: int64,
    producerFlushFrequency: int64,
    netTLSEnable: bool,
    netTLSConfig: Option<TLSConfig>,
    insecureSkipVerify: bool,
    certFile: string,
    keyFile: string,
    caFile: string,
    k8sNamespace: string,
    k8sSecret: string)

  /** How complete() ends: normally, or in the panic of the secret fetch. */
  datatype Completion = Done | Aborted(reason: string)

  /** The branches of complete() before the TLS step: ClientID, buffer size,
      retries and required acks are defaulted; the branches for
      ProducerReturnSuccesses and InsecureSkipVerify assign the value the
      field already has. */
  function CompleteBeforeTLS(s: SaramaSection): SaramaSection
  {
    SaramaSection(
      if s.clientID == "" then DefaultKafkaClientID else s.clientID,
      if s.channelBufferSize == 0 then DefaultKafkaChannelBufferSize else s.channelBufferSize,
      if !s.producerReturnSuccesses then false else s.producerReturnSuccesses,
      if s.producerRetryMax == 0 then DefaultProducerRetryMax else s.producerRetryMax,
      if s.producerRequiredAcks == 0 then WaitForLocal else s.producerRequiredAcks,
      s.producerTimeout, s.producerFlushFrequency, s.netTLSEnable, s.netTLSConfig,
      if s.insecureSkipVerify then true else s.insecureSkipVerify,
      s.certFile, s.keyFile, s.caFile, s.k8sNamespace, s.k8sSecret)
  }

  /** The branches of complete() after the TLS step. */
  function CompleteAfterTLS(s: SaramaSection): SaramaSection
  {
    s.(producerTimeout := if s.producerTimeout == 0 then DefaultProducerTimeout else s.producerTimeout,
       producerFlushFrequency := if s.producerFlushFrequency == 0 then DefaultProducerFlushFrequency else s.producerFlushFrequency)
  }

  /** The section complete() leaves behind. With TLS enabled the Kubernetes
      fetch runs: its configuration replaces NetTLSConfig, and its failure
      aborts complete() after the first branches. */
  function Completed(s: SaramaSection, k8sTLS: Result<TLSConfig, string>): (r: SaramaSection)
    ensures s.netTLSEnable && k8sTLS.Success? ==> r.netTLSConfig == Some(k8sTLS.value)
    ensures s.netTLSEnable && k8sTLS.Failure? ==> r.netTLSConfig == s.netTLSConfig
  {
    var head := CompleteBeforeTLS(s);
    if !s.netTLSEnable then CompleteAfterTLS(head)
    else match k8sTLS
      case Failure(_) => head
      case Success(t) => CompleteAfterTLS(head.(netTLSConfig := Some(t)))
  }

  function CompletionOf(s: SaramaSection, k8sTLS: Result<TLSConfig, string>): Completion
  {
    if s.netTLSEnable && k8sTLS.Failure? then Aborted(k8sTLS.error) else Done
  }

  /** Zero fields take their defaults and non-zero fields are kept; the
      required acknowledgement level NoResponse (0) is always replaced by
      WaitForLocal, while WaitForAll and every other level is kept. */
  lemma CompletedDefaults(s: SaramaSection, k8sTLS: Result<TLSConfig, string>)
    ensures var r := Completed(s, k8sTLS);
      && r.clientID == (if s.clientID == "" then DefaultKafkaClientID else s.clientID)
      && r.channelBufferSize == (if s.channelBufferSize == 0 then DefaultKafkaChannelBufferSize else s.channelBufferSize)
      && r.producerRetryMax == (if s.producerRetryMax == 0 then DefaultProducerRetryMax else s.producerRetryMax)
      && r.producerRequiredAcks == (if s.producerRequiredAcks == NoResponse then WaitForLocal else s.producerRequiredAcks)
      && r.producerRequiredAcks != NoResponse
    ensures var r := Completed(s, k8sTLS);
      CompletionOf(s, k8sTLS) == Done ==>
        && r.producerTimeout == (if s.producerTimeout == 0 then DefaultProducerTimeout else s.producerTimeout)
        && r.producerFlushFrequency == (if s.producerFlushFrequency == 0 then DefaultProducerFlushFrequency else s.producerFlushFrequency)
    ensures var r := Completed(s, k8sTLS);
      CompletionOf(s, k8sTLS).Aborted? ==>
        r.producerTimeout == s.producerTimeout && r.producerFlushFrequency == s.producerFlushFrequency
  {
    var head := CompleteBeforeTLS(s);
    if s.netTLSEnable && k8sTLS.Success? {
      assert Completed(s, k8sTLS) == CompleteAfterTLS(head.(netTLSConfig := Some(k8sTLS.value)));
    } else if s.netTLSEnable {
      assert Completed(s, k8sTLS) == head;
    } else {
      assert Completed(s, k8sTLS) == CompleteAfterTLS(head);
    }
  }

  /** The no-op branches: ProducerReturnSuccesses and InsecureSkipVerify are
      never changed, nor are the certificate and Kubernetes settings. */
  lemma CompletedKeepsNoOpFields(s: SaramaSection, k8sTLS: Result<TLSConfig, string>)
    ensures var r := Completed(s, k8sTLS);
      && r.producerReturnSuccesses == s.producerReturnSuccesses
      && r.insecureSkipVerify == s.insecureSkipVerify
      && r.netTLSEnable == s.netTLSEnable
      && r.certFile == s.certFile && r.keyFile == s.keyFile && r.caFile == s.caFile
      && r.k8sNamespace == s.k8sNamespace && r.k8sSecret == s.k8sSecret
  {
  }

  /** With TLS disabled the secret fetch is never consulted, NetTLSConfig is
      left as it was, and completing twice is completing once. */
  lemma CompletedWithoutTLS(s: SaramaSection, k1: Result<TLSConfig, string>, k2: Result<TLSConfig, string>)
    requires !s.netTLSEnable
    ensures Completed(s, k1) == Completed(s, k2)
    ensures CompletionOf(s, k1) == Done
    ensures Completed(s, k1).netTLSConfig == s.netTLSConfig
    ensures Completed(Completed(s, k1), k2) == Completed(s, k1)
  {
  }

  class SaramaConfig {
    var clientID: string
    var channelBufferSize: int64
    var producerReturnSuccesses: bool
    var producerRetryMax: int64
    var producerRequiredAcks: RequiredAcks
    var producerTimeout: int64
    var producerFlushFrequency: int64
    var netTLSEnable: bool
    var netTLSConfig: Option<TLSConfig>
    var insecureSkipVerify: bool
    var certFile: string
    var keyFile: string
    var caFile: string
    var k8sNamespace: string
    var k8sSecret: string

    constructor (s: SaramaSection)
      ensures Value() == s
    {
      clientID := s.clientID;
      channelBufferSize := s.channelBufferSize;
      producerReturnSuccesses := s.producerReturnSuccesses;
      producerRetryMax := s.producerRetryMax;
      producerRequiredAcks := s.producerRequiredAcks;
      producerTimeout := s.producerTimeout;
      producerFlushFrequency := s.producerFlushFrequency;
      netTLSEnable := s.netTLSEnable;
      netTLSConfig := s.netTLSConfig;
      insecureSkipVerify := s.insecureSkipVerify;
      certFile := s.certFile;
      keyFile := s.keyFile;
      caFile := s.caFile;
      k8sNamespace := s.k8sNamespace;
      k8sSecret := s.k8sSecret;
    }

    function Value(): SaramaSection
      reads this
    {
      SaramaSection(
        clientID, channelBufferSize, producerReturnSuccesses, producerRetryMax,
        producerRequiredAcks, producerTimeout, producerFlushFrequency,
        netTLSEnable, netTLSConfig, insecureSkipVerify,
        certFile, keyFile, caFile, k8sNamespace, k8sSecret)
    }

    /** SaramaConfig.complete. k8sTLS is what createTLSConfigurationWithK8s
        would produce (a Failure is its panic); it is used only when TLS is
        enabled. */
    method Complete(k8sTLS: Result<TLSConfig, string>) returns (c: Completion)
      modifies this
      ensures Value() == Completed(old(Value()), k8sTLS)
      ensures c == CompletionOf(old(Value()), k8sTLS)
    {
      CompleteHead();
      if netTLSEnable {
        if k8sTLS.Failure? {
          return Aborted(k8sTLS.error);
        }
        netTLSConfig := Some(k8sTLS.value);
      }
      CompleteTail();
      c := Done;
    }

    /** The branches of complete() that run before the TLS step, in the
        order of the source. */
    method CompleteHead()
      modifies this
      ensures Value() == CompleteBeforeTLS(old(Value()))
    {
      CompleteClient();
      CompleteProducer();
      if insecureSkipVerify { insecureSkipVerify := true; }
    }

    /** The client settings: an empty ClientID and a zero channel buffer
        size take their defaults. */
    method CompleteClient()
      modifies this
      ensures Value() == old(Value()).(clientID := CompleteBeforeTLS(old(Value())).clientID,
                                      channelBufferSize := CompleteBeforeTLS(old(Value())).channelBufferSize)
    {
      if clientID == "" { clientID := DefaultKafkaClientID; }
      if channelBufferSize == 0 { channelBufferSize := DefaultKafkaChannelBufferSize; }
    }

    /** The producer settings: ProducerReturnSuccesses is reassigned the value
        it has, a zero retry limit becomes 3 and NoResponse becomes
        WaitForLocal. */
    method CompleteProducer()
      modifies this
      ensures Value() == old(Value()).(producerRetryMax := CompleteBeforeTLS(old(Value())).producerRetryMax,
                                      producerRequiredAcks := CompleteBeforeTLS(old(Value())).producerRequiredAcks)
    {
      if !producerReturnSuccesses { producerReturnSuccesses := false; }
      if producerRetryMax == 0 { producerRetryMax := DefaultProducerRetryMax; }
      if producerRequiredAcks == 0 { producerRequiredAcks := WaitForLocal; }
    }

    /** The branches of complete() that run after the TLS step. */
    method CompleteTail()
      modifies this
      ensures Value() == CompleteAfterTLS(old(Value()))
    {
      if producerTimeout == 0 { producerTimeout := DefaultProducerTimeout; }
      if producerFlushFrequency == 0 { producerFlushFrequency := DefaultProducerFlushFrequency; }
    }

    /** createTLSConfiguration: nil unless the certificate, key and CA file
        names are all non-empty; otherwise the key pair and the CA bundle are
        loaded (a load failure panics) into a configuration that carries
        InsecureSkipVerify. */
    method CreateTLSConfiguration(
      loadKeyPair: (string, string) -> Result<KeyPair, string>,
      readFile: string -> Result<string, string>)
      returns (t: Result<Option<TLSConfig>, string>)
      ensures t == Success(None) <==> certFile == "" || keyFile == "" || caFile == ""
      ensures t.Failure? <==>
        && certFile != "" && keyFile != "" && caFile != ""
        && (loadKeyPair(certFile, keyFile).Failure? || readFile(caFile).Failure?)
      ensures t.Success? && t.value.Some? ==>
        && loadKeyPair(certFile, keyFile).Success?
        && readFile(caFile).Success?
        && t.value.value == TLSConfig([loadKeyPair(certFile, keyFile).value], readFile(caFile).value, insecureSkipVerify)
    {
      t := Success(None);
      if certFile != "" && keyFile != "" && caFile != "" {
        var cert := loadKeyPair(certFile, keyFile);
        if cert.Failure? {
          return Failure(cert.error);
        }
        var caCert := readFile(caFile);
        if caCert.Failure? {
          return Failure(caCert.error);
        }
        t := Success(Some(TLSConfig([cert.value], caCert.value, insecureSkipVerify)));
      }
    }
  }
}
