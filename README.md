# Configuration core of alphaframework/alpha, in Dafny

This project models the configuration core of the Go framework
alphaframework/alpha and proves properties of the model. It covers four
parts:

- **Loader** (`aconfig/config.go`). `New` reads a document and runs it
  through an ordered list of preprocessors. The first failure aborts the
  load; otherwise the result is handed to the parser.
- **Encrypted-property preprocessor** (`aconfig/config.go`).
  `PBEWithMD5AndDES_Decrypt` compiles the regular expression
  `QuoteMeta(prefix)(.*)QuoteMeta(suffix)` and calls `ReplaceAllFunc` on
  the document. Its callback searches the matched text again and replaces
  it with the decryption of the captured payload. A decryption error is a
  panic.
- **Port lookups and the key-value bag** (`aconfig/config.go`). These are
  the nil-safe lookups `GetSecondaryPort`, `GetMatchedPrimaryPort` and
  `GetMatchedPrimaryPortLocation`, and `KV.Get`.
- **Section defaulting and the Kafka client builder**
  (`aconfig/custom_config.go`, `aconfig/sarama_config.go`,
  `kafka/kafka.go`):
  - the `complete()` methods, which fill zero fields with fixed defaults;
  - `createTLSConfiguration`;
  - `NewKafkaConfig`, `NewKafkaConfigWith` and `MustKafkaConfigWith`, which
    build the client configuration, the broker list and the default topic
    from a secondary port.

Go structs whose methods update their fields in place are Dafny classes:

- `Log`, `Database`, `Encryptor` and `Common`;
- `SaramaConfig`.

Each class has a `Value()` record, and its methods are proved against a
function on that record. Loops become methods with invariants, proved
against a specification function:

- the preprocessor loop of `New`;
- the match loop of `ReplaceAllFunc`.

The rest is made of datatypes, functions and lemmas. Go's nil pointers are
`Option`s. Go's `(value, error)` results and its panics are `Result`s.

Modules:

| file | module | models |
|---|---|---|
| wrappers.dfy | Wrappers | `Option`, `Result` |
| go_types.dfy | GoTypes | Go's `int64` and `int16`, and two's-complement wrap-around |
| go_strings.dfy | GoStrings | `strings.Split` and `strings.Join` on a one-character separator |
| app_config.dfy | AppConfig | the Application document, `KV`, the port lookups |
| pattern.dfy | Pattern | Go regexp semantics for `prefix(.*)suffix`: leftmost, greedy, `.` excludes `'\n'` |
| substitution.dfy | Substitution | the decrypting callback, `ReplaceAllFunc`, and the rewrite as a splice of decrypted payloads |
| loader.dfy | Loader | `New`, the preprocessor pipeline, the decrypting preprocessor |
| custom_config.dfy | CustomConfig | the Log, Database, Encryptor and Common sections and their `complete()` |
| sarama_config.dfy | SaramaTuning | `SaramaConfig`, its `complete()`, `createTLSConfiguration` |
| kafka.dfy | Kafka | the three Kafka configuration builders |

Three behaviours of the code that a reader might not expect:

- **Stage errors.** A failing stage's error is returned as it is, not
  wrapped with the identity of the stage.
- **Greedy capture.** The capture group is greedy: it runs to the last
  suffix on the line, and the text after that suffix is kept as it is.
  Two encrypted values on one line therefore form a single match,
  and the text between them becomes part of the payload that is decrypted
  (`Substitution.GreedyCaptureJoinsTokensOnALine`).
- **NewKafkaConfig ignores the completed defaults.** It reads the tuning
  section exactly as it is given; nothing in `kafka/kafka.go` calls
  `complete()`. `Kafka.CompletedZeroTuningGivesDefaults` shows the client
  defaults only for a section that has been completed first.

## Model

| member | source | states |
|---|---|---|
| GoTypes.Wrap64 | kafka/kafka.go:46-47 | the int64 result of a Go multiplication: exact when the product fits, otherwise congruent to it modulo 2^64 |
| GoStrings.Split | kafka/kafka.go:52 | `strings.Split` always yields at least one piece, and the empty string yields one empty piece |
| GoStrings.SplitCount | kafka/kafka.go:52 | the number of pieces is one more than the number of separators |
| GoStrings.SplitPiecesAreSeparatorFree | kafka/kafka.go:52 | no piece contains the separator |
| GoStrings.JoinSplit | kafka/kafka.go:52 | joining the pieces with the separator gives back the address |
| GoStrings.SplitJoin | kafka/kafka.go:52 | splitting a join of separator-free pieces gives back the pieces |
| GoStrings.SplitOfSeparatorFree | kafka/kafka.go:52 | an address without a comma is a single broker |
| AppConfig.KV.Get | aconfig/config.go:175-181 | the stored value for a present key, nil for a missing key or a nil bag |
| AppConfig.KV.GetString | aconfig/config.go:183-185 | the string conversion of the stored value for a present key, and of nil for a missing key or a nil bag |
| AppConfig.GetSecondaryPort | aconfig/config.go:127-136 | nil exactly when the port map is nil or lacks the name, otherwise the stored entry |
| AppConfig.GetMatchedPrimaryPort | aconfig/config.go:138-145 | nil exactly when the port is absent or has no match, otherwise the port's match |
| AppConfig.GetMatchedPrimaryPortLocation | aconfig/config.go:147-154 | a location is found only through an existing secondary port whose match carries it; nil exactly when either link is missing |
| Pattern.OccursAtIsSlice | aconfig/config.go:89-91 | the quoted prefix and suffix match literally: an occurrence is an equal slice |
| Pattern.LineFreeUpTo | aconfig/config.go:89 | `.*` can extend from k to j exactly when no newline lies in between |
| Pattern.LastOccurrenceIsLast | aconfig/config.go:89 | the suffix occurrence found is the last one in the range, and none is missed |
| Pattern.MatchAtMatches | aconfig/config.go:89-92 | a match found at a position is a match of the pattern |
| Pattern.MatchAtIsGreedy | aconfig/config.go:89-92 | no match at that position captures more, and when none is found there is none |
| Pattern.FindFrom | aconfig/config.go:103 | the match found starts at or after the search position and lies inside the text |
| Pattern.FindFromMatches | aconfig/config.go:103 | what the search finds is a match |
| Pattern.FindFromIsLeftmostGreedy | aconfig/config.go:103 | the search returns the leftmost match with the longest capture, and finds one whenever one exists |
| Substitution.CallbackPassesUnmatchedText | aconfig/config.go:101-112 | the callback hands back, unchanged, text in which the pattern matches nowhere |
| Substitution.Rewrite | aconfig/config.go:96 | the rewrite from a position can fail only when a match lies at or after that position |
| Substitution.Substitute | aconfig/config.go:96 | a document in which the pattern matches nowhere passes through unchanged |
| Substitution.MatchedSpanShape | aconfig/config.go:96 | the matched text is the prefix, the captured payload and the suffix |
| Substitution.CallbackRecoversPayload | aconfig/config.go:101-112 | on the text of a match, the callback's second search captures exactly the payload and decrypts it |
| Substitution.CallbackOnMatch | aconfig/config.go:101-112 | the callback applied to the text of a match decrypts that match's payload |
| Substitution.Spans | aconfig/config.go:96 | the successive matches are ordered and do not overlap, and each lies inside the document |
| Substitution.DecryptAll | aconfig/config.go:105-108 | a successful decryption of all payloads has one plaintext per match |
| Substitution.DecryptAllDecryptsEach | aconfig/config.go:105-109 | each plaintext is the decryption of the payload at the same position |
| Substitution.DecryptAllFailsAtFirstFailure | aconfig/config.go:105-108 | decryption fails exactly when some payload fails, with the error of the first failing one |
| Substitution.RewriteStep | aconfig/config.go:96 | the rewrite copies the text before the leftmost match, decrypts its payload and continues after the match |
| Substitution.SpliceResultStep | aconfig/config.go:96 | splicing the decrypted payloads unfolds in the same way as the rewrite |
| Substitution.RewriteIsSplice | aconfig/config.go:96 | the rewrite keeps every character outside the matches and replaces each match by its decrypted payload; any failure fails it all |
| Substitution.SubstituteFailsAsDecryptAll | aconfig/config.go:96 | the substitution fails exactly when decrypting the payloads fails, with the same error |
| Substitution.SubstituteFailsIffSomePayloadFails | aconfig/config.go:105-108 | the substitution fails exactly when some matched payload fails to decrypt, with the error of the first such payload |
| Substitution.TrailingTokenIsDecrypted | aconfig/config.go:96 | a document that ends in an encrypted value, with no prefix before that value, keeps the text before it and has the value replaced by the decrypted payload |
| Substitution.EncryptedValueRoundTrip | aconfig/config.go:96 | a delimited ciphertext on its own decrypts to its plaintext |
| Substitution.GreedyCaptureJoinsTokensOnALine | aconfig/config.go:89 | two encrypted values on one line form one match whose payload runs from the first prefix to the last suffix |
| Substitution.PrependTwice | aconfig/config.go:96 | output already produced by the replacement loop is kept in front, in order |
| Substitution.ReplaceAllFrom | aconfig/config.go:96 | `ReplaceAllFunc` fails only when a match lies at or after the search position |
| Substitution.ReplaceAllFromFailsOnCallback | aconfig/config.go:96 | a failure of `ReplaceAllFunc` is the callback's failure on the text of a match the search finds at or after the search position |
| Substitution.ReplaceAllFromKeepsOutput | aconfig/config.go:96 | output already produced stays unchanged at the front of the result |
| Substitution.DecryptCallbackRewrites | aconfig/config.go:96-112 | `ReplaceAllFunc` with the decrypting callback computes the rewrite after the output produced so far |
| Substitution.DecryptCallbackSubstitutes | aconfig/config.go:96-112 | `ReplaceAllFunc` with the decrypting callback, over the whole document, is the substitution |
| Substitution.ReplaceAllFunc | aconfig/config.go:96 | the match loop computes `ReplaceAllFrom` from the start of the document with no output yet |
| Loader.Pipeline | aconfig/config.go:73-77 | a one-stage pipeline is that stage, and a pipeline without stages never fails |
| Loader.PipelineAppend | aconfig/config.go:73-77 | running two stage lists in sequence is running the first, then the second on its output, unless the first fails |
| Loader.PipelineFailsAtFirstFailure | aconfig/config.go:73-77 | a failed pipeline fails with the error of its first failing stage, after every earlier stage succeeded |
| Loader.New | aconfig/config.go:66-84 | a read error is returned; otherwise the first stage failure is returned; otherwise the parser's outcome on the pipeline's output |
| Loader.PBEWithMD5AndDESDecrypt | aconfig/config.go:86-98 | the preprocessor never returns an error: each of its failures is a panic |
| Loader.RunDecryptStage | aconfig/config.go:86-98 | the preprocessor completes a copy of the encryptor, runs `ReplaceAllFunc` with the callback and panics on a decryption failure, leaving the caller's encryptor unchanged |
| Loader.DecryptStageDefaultsDelimiters | aconfig/config.go:88 | empty delimiters behave exactly as "ENC(" and ")" |
| Loader.DecryptStageFailsIffSomePayloadFails | aconfig/config.go:86-112 | the preprocessor panics exactly when some payload fails to decrypt, and is the identity on a document without a match |
| CustomConfig.LogSection.Completed | aconfig/custom_config.go:34-41 | an empty level or directory becomes "info" or "/data/log", a set one is kept, and the result is complete |
| CustomConfig.DatabaseSection.Completed | aconfig/custom_config.go:51-67 | each zero field takes its default (100, 5, 3600, 300, 500), each non-zero field, negative ones included, is kept |
| CustomConfig.EncryptorSection.Completed | aconfig/custom_config.go:75-82 | empty delimiters become "ENC(" and ")", set ones are kept, and the password is never changed |
| CustomConfig.CommonSection.Completed | aconfig/custom_config.go:23-27 | completing the three sections yields a complete section and changes a complete one not at all |
| CustomConfig.CompleteIsIdempotent | aconfig/custom_config.go:23-27 | completing twice is completing once |
| CustomConfig.Log.Complete | aconfig/custom_config.go:34-41 | the object afterwards holds the completed section |
| CustomConfig.Database.Complete | aconfig/custom_config.go:51-67 | the object afterwards holds the completed section |
| CustomConfig.Encryptor.Complete | aconfig/custom_config.go:75-82 | the object afterwards holds the completed section |
| CustomConfig.Common.Complete | aconfig/custom_config.go:23-27 | the three embedded sections afterwards hold their completed values |
| SaramaTuning.Completed | aconfig/sarama_config.go:73-78 | with TLS enabled, a successful secret fetch replaces the TLS configuration and a failed one leaves it in place |
| SaramaTuning.CompletedDefaults | aconfig/sarama_config.go:53-85 | zero fields take their defaults, set fields are kept, the acknowledgement level is never left at NoResponse, and an aborted completion leaves the timeout and flush frequency alone |
| SaramaTuning.CompletedKeepsNoOpFields | aconfig/sarama_config.go:61-72 | the branches for ProducerReturnSuccesses and InsecureSkipVerify change nothing, and neither are the file or Kubernetes settings changed |
| SaramaTuning.CompletedWithoutTLS | aconfig/sarama_config.go:73-78 | with TLS disabled the secret fetch is never consulted, the TLS configuration is kept, and completion is idempotent |
| SaramaTuning.SaramaConfig.Complete | aconfig/sarama_config.go:53-85 | the object afterwards holds the completed section; a failed secret fetch aborts after the first branches |
| SaramaTuning.SaramaConfig.CompleteHead | aconfig/sarama_config.go:55-72 | the branches before the TLS step, in order |
| SaramaTuning.SaramaConfig.CompleteClient | aconfig/sarama_config.go:55-60 | an empty client ID and a zero buffer size take "sarama" and 256 |
| SaramaTuning.SaramaConfig.CompleteProducer | aconfig/sarama_config.go:61-69 | a zero retry limit becomes 3 and NoResponse becomes WaitForLocal |
| SaramaTuning.SaramaConfig.CompleteTail | aconfig/sarama_config.go:79-84 | a zero timeout becomes 10 and a zero flush frequency becomes 500 |
| SaramaTuning.SaramaConfig.CreateTLSConfiguration | aconfig/sarama_config.go:87-110 | nil unless all three file names are set; a load failure panics; otherwise the key pair, the CA bundle and InsecureSkipVerify |
| Kafka.Scale | kafka/kafka.go:46-47 | a duration in units is the int64 product of the count and the unit, modulo 2^64 |
| Kafka.NewKafkaConfig | kafka/kafka.go:35-53 | the setup is the tuning section's configuration, the comma-separated brokers of the address and the "topic" option, whatever the library's starting values |
| Kafka.NewKafkaConfigWith | kafka/kafka.go:22-33 | a missing location fails first, nil options second, and success happens exactly when the port, its match, its location and its options are all present |
| Kafka.MustKafkaConfigWith | kafka/kafka.go:13-20 | succeeds exactly when NewKafkaConfigWith does, with its value; otherwise panics with the error's text |
| Kafka.BrokersSplitTheAddress | kafka/kafka.go:52 | the brokers are one more than the commas, contain no comma, and join back to the address |
| Kafka.SingleBroker | kafka/kafka.go:52 | an address without a comma is the only broker |
| Kafka.TopicIsTheTopicOption | kafka/kafka.go:52 | the topic is the "topic" option, and no other option changes the setup |
| Kafka.ConfigOf | kafka/kafka.go:38-50 | scalar settings are copied; the timeout is in seconds and the flush frequency in milliseconds, exact while they fit in 64 bits and wrapped modulo 2^64 otherwise |
| Kafka.ClientSetup | kafka/kafka.go:35-53 | the configuration is the tuning section's; the brokers are comma-free and join back to the address; the topic is the conversion of the "topic" option |
| Kafka.BuildError.Message | kafka/kafka.go:22-30 | each error text ends with the port name in parentheses |
| Kafka.CompletedZeroTuningGivesDefaults | kafka/kafka.go:38-50 | a completed all-zero section yields client "sarama", 256 buffered messages, 3 retries, WaitForLocal, a 10 s timeout and a 500 ms flush |

## Left out

- Reading the configuration file (`ioutil.ReadFile`) and YAML parsing (`yaml.Unmarshal`) are I/O and a foreign library. Their outcomes are parameters of `Loader.New`.
- The PBEWithMD5AndDES cipher is a foreign library. Decryption is a parameter, and a `Failure` stands for the error that makes the callback panic.
- The error branch after `regexp.Compile` is not modelled: both affixes are quoted, so compilation cannot fail.
- The callback's fallback `return s` is kept in the model but never taken, because the callback only ever sees the text of a match.
- In Go, the preprocessor completes the encryptor copy its closure captured, and that copy persists between calls. The model completes a fresh copy on each call. The outcome is the same, because completion is idempotent.
- `ReplaceAllFunc`'s treatment of empty matches is not modelled. After completion the prefix is never empty, so no match is empty (`Rewrite` requires a non-empty prefix).
- Text is a sequence of characters and stands for the document's bytes. Go's `.` in the pattern excludes only the newline byte.
- Typed KV getters: `KV.GetString` is modelled, but the `cast.ToString` conversion it calls is a parameter. The other typed getters (`GetBool` through `GetTime`) are the same `cast` calls on `get` and are not modelled. Neither is `KV.LoadTo`, which is a JSON round trip.
- `GetName`, `GetAPIVersion`, `GetSecondaryPorts` and `GetCustomConfig` are field selectors on the `Application` datatype.
- Document numbers are integers, not Go's `float64`.
- AppConfig.GetSecondaryPort: Go returns a pointer to a shallow copy of the stored entry, so the copy still shares the entry's `Options` map and its `MatchedPrimaryPort` pointer, and a write through either changes the stored entry. The model returns a value, which shares nothing. Nothing in the modelled core writes to the result, so the difference is never observed here.
- `createTLSConfigurationWithK8s` is not modelled. It needs a Kubernetes client, a secret fetch and X509 parsing. `SaramaConfig.Complete` takes its outcome as a parameter, where a `Failure` is its panic. The function never returns nil, so the `tlsConfig != nil` test always passes and the model always assigns.
- `createTLSConfiguration` is never called by `complete()`. The file loads it performs are parameters.
- The starting values of `sarama.NewConfig()` are a parameter of `Kafka.NewKafkaConfig`. Only the settings `kafka/kafka.go` assigns are modelled.
- The log lines (`alog`) are output only and are not modelled.
- A nil `*SaramaConfig` or `*Application` argument, which panics in Go, is not modelled.
- `NewKafkaConfig`'s error result is always nil, so the method has no error path.
- The repository's example program (`main.go`) and its HTTP response writer (`httpserver/rsp/responsewriter.go`) lie outside the configuration core.
