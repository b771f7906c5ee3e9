/** The document loader of aconfig/config.go: New runs the raw document
    through the preprocessors in order and hands the result to the parser;
    PBEWithMD5AndDES_Decrypt builds the decrypting preprocessor. Reading the
    file and parsing YAML are outside this model: their outcomes are
    parameters. */
module Loader {
  import opened Wrappers
  import opened Pattern
  import opened Substitution
  import opened CustomConfig
  import opened AppConfig

  type Data = string

  /** How a stage or the load ends in failure: with a returned error, or with
      a panic that unwinds through New. */
  datatype LoadFailure = Returned(message: string) | Panicked(message: string)

  /** A PreProcessFunc. */
  type Stage = Data -> Result<Data, LoadFailure>

  /** The preprocessors applied in list order, each to the previous one's
      output, stopping at the first failure. */
  function Pipeline(data: Data, stages: seq<Stage>): (r: Result<Data, LoadFailure>)
    ensures |stages| == 1 ==> r == stages[0](data)
    ensures r.Failure? ==> stages != []
    decreases |stages|
  {
    if stages == [] then Success(data)
    else
      match stages[0](data)
      case Failure(f) => Failure(f)
      case Success(next) => Pipeline(next, stages[1..])
  }

  /** Running a + b is running a, then running b on its output; a failure in
      a ends the pipeline, so no stage of b runs. */
  lemma {:induction false} PipelineAppend(data: Data, a: seq<Stage>, b: seq<Stage>)
    ensures Pipeline(data, a + b) ==
      match Pipeline(data, a)
      case Failure(f) => Failure(f)
      case Success(mid) => Pipeline(mid, b)
    decreases |a|
  {
    if a == [] {
      assert a + b == b;
    } else {
      assert (a + b)[0] == a[0];
      assert (a + b)[1..] == a[1..] + b;
      match a[0](data)
      case Failure(f) =>
      case Success(next) =>
        PipelineAppend(next, a[1..], b);
    }
  }

  /** A failed pipeline fails with the error of its first failing stage: every
      stage before it succeeded, and nothing after it ran. */
  lemma {:induction false} PipelineFailsAtFirstFailure(data: Data, stages: seq<Stage>)
    ensures Pipeline(data, stages).Failure? ==>
      exists n :: && 0 <= n < |stages|
                  && Pipeline(data, stages[..n]).Success?
                  && stages[n](Pipeline(data, stages[..n]).value) == Failure(Pipeline(data, stages).error)
    decreases |stages|
  {
    if stages != [] && Pipeline(data, stages).Failure? {
      assert stages[..0] == [];
      match stages[0](data)
      case Failure(f) =>
        assert Pipeline(data, stages[..0]) == Success(data);
      case Success(next) =>
        PipelineFailsAtFirstFailure(next, stages[1..]);
        var n :| && 0 <= n < |stages[1..]|
                 && Pipeline(next, stages[1..][..n]).Success?
                 && stages[1..][n](Pipeline(next, stages[1..][..n]).value) == Failure(Pipeline(data, stages).error);
        assert stages[..n + 1] == [stages[0]] + stages[1..][..n];
        assert ([stages[0]] + stages[1..][..n])[1..] == stages[1..][..n];
        assert Pipeline(data, stages[..n + 1]) == Pipeline(next, stages[1..][..n]);
        assert stages[n + 1] == stages[1..][n];
    }
  }

  /** New: load the document (its bytes, or the read error, are given), run
      the preprocessors in order, then parse; the first failure is returned. */
  method New(read: Result<Data, string>, stages: seq<Stage>, unmarshal: Data -> Result<Application, string>)
    returns (r: Result<Application, LoadFailure>)
    ensures read.Failure? ==> r == Failure(Returned(read.error))
    ensures read.Success? && Pipeline(read.value, stages).Failure? ==>
      r == Failure(Pipeline(read.value, stages).error)
    ensures read.Success? && Pipeline(read.value, stages).Success? ==>
      r == match unmarshal(Pipeline(read.value, stages).value)
           case Failure(e) => Failure(Returned(e))
           case Success(app) => Success(app)
  {
    if read.Failure? {
      return Failure(Returned(read.error));
    }
    var data := read.value;
    var i := 0;
    while i < |stages|
      invariant 0 <= i <= |stages|
      invariant Pipeline(read.value, stages) == Pipeline(data, stages[i..])
    {
      assert stages[i..][0] == stages[i] && stages[i..][1..] == stages[i + 1..];
      var outcome := stages[i](data);
      if outcome.Failure? {
        return Failure(outcome.error);
      }
      data := outcome.value;
      i := i + 1;
    }
    var parsed := unmarshal(data);
    if parsed.Failure? {
      return Failure(Returned(parsed.error));
    }
    r := Success(parsed.value);
  }

  /** PBEWithMD5AndDES_Decrypt(encryptor): the decrypting preprocessor. It
      completes its own copy of the encryptor section (so empty delimiters
      become "ENC(" and ")"), substitutes every delimited payload with its
      decryption, and panics when a decryption fails. */
  function PBEWithMD5AndDESDecrypt(encryptor: EncryptorSection, decrypt: Decrypter): (stage: Stage)
    ensures forall data :: stage(data).Failure? ==> stage(data).error.Panicked?
  {
    (data: Data) =>
      var settings := encryptor.Completed();
      match Substitute(data, settings.propertyPrefix, settings.propertySuffix, settings.password, decrypt)
      case Failure(e) => Failure(Panicked(e))
      case Success(out) => Success(out)
  }

  /** The body of the decrypting preprocessor, step by step: copy the
      encryptor, complete the copy, run the replacement loop. The caller's
      encryptor is never modified. */
  method RunDecryptStage(encryptor: Encryptor, data: Data, decrypt: Decrypter) returns (r: Result<Data, LoadFailure>)
    ensures r == PBEWithMD5AndDESDecrypt(encryptor.Value(), decrypt)(data)
  {
    var local := new Encryptor(encryptor.Value());
    local.Complete();
    var replaced := ReplaceAllFunc(data, local.propertyPrefix, local.propertySuffix,
                                   DecryptCallback(local.propertyPrefix, local.propertySuffix, local.password, decrypt));
    DecryptCallbackSubstitutes(data, local.propertyPrefix, local.propertySuffix, local.password, decrypt);
    if replaced.Failure? {
      return Failure(Panicked(replaced.error));
    }
    r := Success(replaced.value);
  }

  /** An encryptor section with empty delimiters decrypts exactly as one
      that names the defaults "ENC(" and ")". */
  lemma DecryptStageDefaultsDelimiters(password: string, decrypt: Decrypter, data: Data)
    ensures PBEWithMD5AndDESDecrypt(EncryptorSection(password, "", ""), decrypt)(data)
         == PBEWithMD5AndDESDecrypt(EncryptorSection(password, DefaultPropertyPrefix, DefaultPropertySuffix), decrypt)(data)
  {
  }

  /** The decrypting stage fails, by panicking, exactly when some matched
      payload fails to decrypt; on a document without any match it passes
      the document through. */
  lemma DecryptStageFailsIffSomePayloadFails(encryptor: EncryptorSection, decrypt: Decrypter, data: Data)
    ensures var c := encryptor.Completed();
      var spans := Spans(data, c.propertyPrefix, c.propertySuffix, 0);
      PBEWithMD5AndDESDecrypt(encryptor, decrypt)(data).Failure? <==>
        exists n :: 0 <= n < |spans| &&
          decrypt(Payload(data, c.propertyPrefix, c.propertySuffix, spans[n]), c.password).Failure?
    ensures PBEWithMD5AndDESDecrypt(encryptor, decrypt)(data).Failure? ==>
      PBEWithMD5AndDESDecrypt(encryptor, decrypt)(data).error.Panicked?
    ensures var c := encryptor.Completed();
      (forall i, j :: !IsMatch(data, c.propertyPrefix, c.propertySuffix, i, j)) ==>
        PBEWithMD5AndDESDecrypt(encryptor, decrypt)(data) == Success(data)
  {
    var c := encryptor.Completed();
    SubstituteFailsIffSomePayloadFails(data, c.propertyPrefix, c.propertySuffix, c.password, decrypt);
  }
}
