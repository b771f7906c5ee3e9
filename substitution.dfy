/** The encrypted-property substitution of aconfig/config.go: every match of
    prefix(.*)suffix in the raw document is replaced by the decryption of its
    captured payload, as regexp.ReplaceAllFunc does with the callback built by
    _PBEWithMD5AndDES_Decrypt. The cipher itself is a parameter. */
module Substitution {
  import opened Wrappers
  import opened Pattern

  /** Decryption of a payload under a password; a Failure is the error the
      callback panics with. */
  type Decrypter = (Text, string) -> Result<Text, string>

  /** The replacement callback: it runs the pattern again on the matched text
      and decrypts the first group (a failure panics); text the pattern does
      not match is handed back as it is. */
  function DecryptMatched(m: Text, p: Text, s: Text, password: string, decrypt: Decrypter): Result<Text, string>
  {
    match FindFrom(m, p, s, 0)
    case Some(sp) => decrypt(m[sp.start + |p|..sp.captureEnd], password)
    case None => Success(m)
  }

  /** Text in which the pattern matches nowhere is handed back by the
      callback as it is. */
  lemma CallbackPassesUnmatchedText(m: Text, p: Text, s: Text, password: string, decrypt: Decrypter)
    requires forall i, j :: !IsMatch(m, p, s, i, j)
    ensures DecryptMatched(m, p, s, password, decrypt) == Success(m)
  {
    FindFromMatches(m, p, s, 0);
  }

  /** A matched span is the prefix, the captured payload and the suffix. */
  lemma MatchedSpanShape(t: Text, p: Text, s: Text, i: nat, j: nat)
    requires IsMatch(t, p, s, i, j)
    ensures t[i..j + |s|] == p + t[i + |p|..j] + s
  {
    OccursAtIsSlice(t, i, p);
    OccursAtIsSlice(t, j, s);
    SliceSplit(t, i, i + |p|, j, j + |s|);
  }

  /** On the text of a match, the callback's second search finds the whole
      text again, so it decrypts exactly the payload the first search captured. */
  lemma CallbackRecoversPayload(p: Text, c: Text, s: Text, password: string, decrypt: Decrypter)
    requires LineFree(c)
    ensures DecryptMatched(p + c + s, p, s, password, decrypt) == decrypt(c, password)
  {
    var m := p + c + s;
    var j0 := |p| + |c|;
    assert m[0..|p|] == p;
    assert m[j0..j0 + |s|] == s;
    assert m[|p|..j0] == c;
    OccursAtIsSlice(m, 0, p);
    OccursAtIsSlice(m, j0, s);
    assert IsMatch(m, p, s, 0, j0);
    var found := FindFrom(m, p, s, 0);
    FindFromIsLeftmostGreedy(m, p, s, 0);
    FindFromMatches(m, p, s, 0);
    assert found.Some?;
    assert found.value.start == 0;
    assert found.value.captureEnd == j0;
  }

  /** ReplaceAllFunc with the decrypting callback, from index k on: the text
      before the leftmost match is copied, the match is replaced by the
      decryption of its payload (what the callback computes, by
      CallbackOnMatch), and the search resumes after the match. The first
      failure (in text order) aborts the whole rewrite. */
  function Rewrite(t: Text, p: Text, s: Text, password: string, decrypt: Decrypter, k: nat): (r: Result<Text, string>)
    requires |p| > 0 && k <= |t|
    ensures r.Failure? ==> FindFrom(t, p, s, k).Some?
    decreases |t| - k
  {
    match FindFrom(t, p, s, k)
    case None => Success(t[k..])
    case Some(sp) =>
      var e := sp.captureEnd + |s|;
      match decrypt(Payload(t, p, s, sp), password)
      case Failure(err) => Failure(err)
      case Success(plain) =>
        match Rewrite(t, p, s, password, decrypt, e)
        case Failure(err) => Failure(err)
        case Success(rest) => Success(t[k..sp.start] + plain + rest)
  }

  /** The substitution over a whole document; a document in which the
      pattern matches nowhere passes through unchanged. */
  function Substitute(t: Text, p: Text, s: Text, password: string, decrypt: Decrypter): (r: Result<Text, string>)
    requires |p| > 0
    ensures (forall i, j :: !IsMatch(t, p, s, i, j)) ==> r == Success(t)
  {
    FindFromMatches(t, p, s, 0);
    Rewrite(t, p, s, password, decrypt, 0)
  }

  /** Spans placed in order, without overlap, inside t[k..] (each covering its
      suffix too, which is suffixLength long). */
  ghost predicate Ordered(spans: seq<Span>, k: nat, suffixLength: nat, n: nat)
    decreases |spans|
  {
    spans == [] ||
    (&& k <= spans[0].start <= spans[0].captureEnd
     && spans[0].captureEnd + suffixLength <= n
     && Ordered(spans[1..], spans[0].captureEnd + suffixLength, suffixLength, n))
  }

  /** All the matches the search finds from k on, leftmost first. */
  function Spans(t: Text, p: Text, s: Text, k: nat): (r: seq<Span>)
    requires |p| > 0 && k <= |t|
    ensures Ordered(r, k, |s|, |t|)
    ensures forall n {:trigger r[n]} :: 0 <= n < |r| ==> Fits(t, p, s, r[n])
    decreases |t| - k
  {
    match FindFrom(t, p, s, k)
    case None => []
    case Some(sp) =>
      var rest := Spans(t, p, s, sp.captureEnd + |s|);
      assert ([sp] + rest)[1..] == rest;
      [sp] + rest
  }

  /** The payload a match captures. */
  function Payload(t: Text, p: Text, s: Text, sp: Span): Text
    requires Fits(t, p, s, sp)
  {
    t[sp.start + |p|..sp.captureEnd]
  }

  /** The decryption of every payload in order, or the first failure. */
  function DecryptAll(t: Text, p: Text, s: Text, spans: seq<Span>, password: string, decrypt: Decrypter): (r: Result<seq<Text>, string>)
    requires forall n {:trigger spans[n]} :: 0 <= n < |spans| ==> Fits(t, p, s, spans[n])
    ensures r.Success? ==> |r.value| == |spans|
    decreases |spans|
  {
    if spans == [] then Success([])
    else
      match decrypt(Payload(t, p, s, spans[0]), password)
      case Failure(e) => Failure(e)
      case Success(plain) =>
        match DecryptAll(t, p, s, spans[1..], password, decrypt)
        case Failure(e) => Failure(e)
        case Success(rest) => Success([plain] + rest)
  }

  /** A successful DecryptAll holds, at each position, the decryption of the
      payload of the span at that position. */
  lemma {:induction false} DecryptAllDecryptsEach(t: Text, p: Text, s: Text, spans: seq<Span>, password: string, decrypt: Decrypter)
    requires forall n {:trigger spans[n]} :: 0 <= n < |spans| ==> Fits(t, p, s, spans[n])
    ensures var r := DecryptAll(t, p, s, spans, password, decrypt);
      r.Success? ==> forall n :: 0 <= n < |spans| ==> decrypt(Payload(t, p, s, spans[n]), password) == Success(r.value[n])
    decreases |spans|
  {
    var r := DecryptAll(t, p, s, spans, password, decrypt);
    if spans != [] && r.Success? {
      DecryptAllDecryptsEach(t, p, s, spans[1..], password, decrypt);
      var rest := DecryptAll(t, p, s, spans[1..], password, decrypt);
      forall n | 0 <= n < |spans|
        ensures decrypt(Payload(t, p, s, spans[n]), password) == Success(r.value[n])
      {
        if n > 0 {
          assert spans[n] == spans[1..][n - 1];
          assert r.value[n] == rest.value[n - 1];
        }
      }
    }
  }

  /** A failed DecryptAll reports the error of the first payload that fails. */
  lemma {:induction false} DecryptAllFailsAtFirstFailure(t: Text, p: Text, s: Text, spans: seq<Span>, password: string, decrypt: Decrypter)
    requires forall n {:trigger spans[n]} :: 0 <= n < |spans| ==> Fits(t, p, s, spans[n])
    ensures DecryptAll(t, p, s, spans, password, decrypt).Failure? <==>
      exists n :: 0 <= n < |spans| && decrypt(Payload(t, p, s, spans[n]), password).Failure?
    ensures DecryptAll(t, p, s, spans, password, decrypt).Failure? ==>
      exists n :: && 0 <= n < |spans|
                  && decrypt(Payload(t, p, s, spans[n]), password) == Failure(DecryptAll(t, p, s, spans, password, decrypt).error)
                  && forall m :: 0 <= m < n ==> decrypt(Payload(t, p, s, spans[m]), password).Success?
    decreases |spans|
  {
    if spans != [] {
      var first := decrypt(Payload(t, p, s, spans[0]), password);
      DecryptAllFailsAtFirstFailure(t, p, s, spans[1..], password, decrypt);
      if first.Success? {
        var r := DecryptAll(t, p, s, spans, password, decrypt);
        if r.Failure? {
          var n :| && 0 <= n < |spans[1..]|
                   && decrypt(Payload(t, p, s, spans[1..][n]), password) == Failure(r.error)
                   && forall m :: 0 <= m < n ==> decrypt(Payload(t, p, s, spans[1..][m]), password).Success?;
          assert spans[n + 1] == spans[1..][n];
          forall m | 0 <= m < n + 1
            ensures decrypt(Payload(t, p, s, spans[m]), password).Success?
          {
            if m > 0 {
              assert spans[m] == spans[1..][m - 1];
            }
          }
        } else {
          forall n | 0 <= n < |spans|
            ensures decrypt(Payload(t, p, s, spans[n]), password).Success?
          {
            if n > 0 {
              assert spans[n] == spans[1..][n - 1];
            }
          }
        }
      } else {
        assert decrypt(Payload(t, p, s, spans[0]), password).Failure?;
      }
    }
  }

  /** Replace each span of t[k..] (with its suffix) by the matching text of
      plains, keeping every character outside the spans. */
  function Splice(t: Text, k: nat, spans: seq<Span>, suffixLength: nat, plains: seq<Text>): Text
    requires k <= |t| && |spans| == |plains|
    requires Ordered(spans, k, suffixLength, |t|)
    decreases |spans|
  {
    if spans == [] then t[k..]
    else
      var e := spans[0].captureEnd + suffixLength;
      t[k..spans[0].start] + plains[0] + Splice(t, e, spans[1..], suffixLength, plains[1..])
  }

  /** Splicing a non-empty list of spans: the gap before the first span,
      its replacement, then the splice of the rest after it. */
  lemma SpliceFirst(t: Text, k: nat, sp: Span, rest: seq<Span>, suffixLength: nat, plain: Text, plains: seq<Text>)
    requires k <= |t| && |rest| == |plains|
    requires Ordered([sp] + rest, k, suffixLength, |t|)
    ensures k <= sp.start <= sp.captureEnd + suffixLength <= |t|
    ensures Ordered(rest, sp.captureEnd + suffixLength, suffixLength, |t|)
    ensures Splice(t, k, [sp] + rest, suffixLength, [plain] + plains)
         == t[k..sp.start] + plain + Splice(t, sp.captureEnd + suffixLength, rest, suffixLength, plains)
  {
    var spans, texts := [sp] + rest, [plain] + plains;
    assert spans[0] == sp && spans[1..] == rest;
    assert texts[0] == plain && texts[1..] == plains;
  }

  /** Decrypting a non-empty list of spans: the first payload, then the rest. */
  lemma DecryptAllFirst(t: Text, p: Text, s: Text, sp: Span, rest: seq<Span>, password: string, decrypt: Decrypter)
    requires Fits(t, p, s, sp)
    requires forall n {:trigger rest[n]} :: 0 <= n < |rest| ==> Fits(t, p, s, rest[n])
    ensures forall n {:trigger ([sp] + rest)[n]} :: 0 <= n < |[sp] + rest| ==>
      Fits(t, p, s, ([sp] + rest)[n])
    ensures DecryptAll(t, p, s, [sp] + rest, password, decrypt) ==
      match decrypt(Payload(t, p, s, sp), password)
      case Failure(e) => Failure(e)
      case Success(plain) =>
        match DecryptAll(t, p, s, rest, password, decrypt)
        case Failure(e) => Failure(e)
        case Success(plains) => Success([plain] + plains)
  {
    forall n | 0 <= n < |[sp] + rest|
      ensures Fits(t, p, s, ([sp] + rest)[n])
    {
      if n > 0 {
        assert ([sp] + rest)[n] == rest[n - 1];
      }
    }
    assert ([sp] + rest)[0] == sp;
    assert ([sp] + rest)[1..] == rest;
  }

  /** The splice of the decrypted payloads into the spans found from k on,
      or the first decryption failure. */
  function SpliceResult(t: Text, p: Text, s: Text, password: string, decrypt: Decrypter, k: nat): Result<Text, string>
    requires |p| > 0 && k <= |t|
  {
    var spans := Spans(t, p, s, k);
    match DecryptAll(t, p, s, spans, password, decrypt)
    case Failure(e) => Failure(e)
    case Success(plains) => Success(Splice(t, k, spans, |s|, plains))
  }

  /** SpliceResult unfolds like the rewrite: the gap before the leftmost
      match and the decryption of its payload, then the splice after it. */
  lemma SpliceResultStep(t: Text, p: Text, s: Text, password: string, decrypt: Decrypter, k: nat, sp: Span)
    requires |p| > 0 && k <= |t|
    requires FindFrom(t, p, s, k) == Some(sp)
    ensures sp.captureEnd + |s| <= |t|
    ensures SpliceResult(t, p, s, password, decrypt, k) ==
      match decrypt(Payload(t, p, s, sp), password)
      case Failure(err) => Failure(err)
      case Success(plain) =>
        Prepend(t[k..sp.start] + plain, SpliceResult(t, p, s, password, decrypt, sp.captureEnd + |s|))
  {
    var e := sp.captureEnd + |s|;
    var rest := Spans(t, p, s, e);
    assert Spans(t, p, s, k) == [sp] + rest;
    DecryptAllFirst(t, p, s, sp, rest, password, decrypt);
    var first := decrypt(Payload(t, p, s, sp), password);
    var later := DecryptAll(t, p, s, rest, password, decrypt);
    if first.Success? && later.Success? {
      SpliceFirst(t, k, sp, rest, |s|, first.value, later.value);
    }
  }

  /** The rewrite is the splice of the decrypted payloads into the matched
      spans: characters outside the spans are preserved, each span becomes the
      decryption of its payload, and any decryption failure fails it all. */
  lemma {:induction false} RewriteIsSplice(t: Text, p: Text, s: Text, password: string, decrypt: Decrypter, k: nat)
    requires |p| > 0 && k <= |t|
    ensures Rewrite(t, p, s, password, decrypt, k) == SpliceResult(t, p, s, password, decrypt, k)
    decreases |t| - k
  {
    match FindFrom(t, p, s, k)
    case None =>
      assert Spans(t, p, s, k) == [];
    case Some(sp) =>
      RewriteIsSplice(t, p, s, password, decrypt, sp.captureEnd + |s|);
      RewriteStep(t, p, s, password, decrypt, k, sp);
      SpliceResultStep(t, p, s, password, decrypt, k, sp);
  }

  /** The callback applied to the text of a match decrypts that match's payload. */
  lemma CallbackOnMatch(t: Text, p: Text, s: Text, password: string, decrypt: Decrypter, sp: Span)
    requires IsMatch(t, p, s, sp.start, sp.captureEnd)
    ensures sp.captureEnd + |s| <= |t|
    ensures DecryptMatched(t[sp.start..sp.captureEnd + |s|], p, s, password, decrypt)
         == decrypt(Payload(t, p, s, sp), password)
  {
    var c := Payload(t, p, s, sp);
    MatchedSpanShape(t, p, s, sp.start, sp.captureEnd);
    CallbackRecoversPayload(p, c, s, password, decrypt);
  }

  /** One step of the rewrite: the text before the leftmost match, then the
      decryption of its payload, then the rewrite after the match. */
  lemma RewriteStep(t: Text, p: Text, s: Text, password: string, decrypt: Decrypter, k: nat, sp: Span)
    requires |p| > 0 && k <= |t|
    requires FindFrom(t, p, s, k) == Some(sp)
    ensures sp.captureEnd + |s| <= |t|
    ensures var e := sp.captureEnd + |s|;
      Rewrite(t, p, s, password, decrypt, k) ==
        match decrypt(Payload(t, p, s, sp), password)
        case Failure(err) => Failure(err)
        case Success(plain) => Prepend(t[k..sp.start] + plain, Rewrite(t, p, s, password, decrypt, e))
  {
  }

  /** The substitution fails exactly when decrypting the payloads of its
      spans fails, and with the same error. */
  lemma SubstituteFailsAsDecryptAll(t: Text, p: Text, s: Text, password: string, decrypt: Decrypter)
    requires |p| > 0
    ensures var all := DecryptAll(t, p, s, Spans(t, p, s, 0), password, decrypt);
      && (Substitute(t, p, s, password, decrypt).Failure? <==> all.Failure?)
      && (all.Failure? ==> Substitute(t, p, s, password, decrypt).error == all.error)
  {
    RewriteIsSplice(t, p, s, password, decrypt, 0);
  }

  /** Preprocessing fails exactly when some matched payload fails to decrypt,
      and then with the error of the first such payload. */
  lemma SubstituteFailsIffSomePayloadFails(t: Text, p: Text, s: Text, password: string, decrypt: Decrypter)
    requires |p| > 0
    ensures var spans := Spans(t, p, s, 0);
      Substitute(t, p, s, password, decrypt).Failure? <==>
        exists n :: 0 <= n < |spans| && decrypt(Payload(t, p, s, spans[n]), password).Failure?
    ensures var spans := Spans(t, p, s, 0);
      Substitute(t, p, s, password, decrypt).Failure? ==>
        exists n :: && 0 <= n < |spans|
                    && decrypt(Payload(t, p, s, spans[n]), password) == Failure(Substitute(t, p, s, password, decrypt).error)
                    && forall m :: 0 <= m < n ==> decrypt(Payload(t, p, s, spans[m]), password).Success?
  {
    SubstituteFailsAsDecryptAll(t, p, s, password, decrypt);
    DecryptAllFailsAtFirstFailure(t, p, s, Spans(t, p, s, 0), password, decrypt);
  }

  /** A document that ends in an encrypted value, with no prefix occurring
      before the value: the text before the value is kept and the value is replaced
      by the decryption of its payload (or the whole rewrite fails). */
  lemma TrailingTokenIsDecrypted(a: Text, p: Text, c: Text, s: Text, password: string, decrypt: Decrypter)
    requires |p| > 0 && LineFree(c)
    requires forall i :: 0 <= i < |a| ==> !OccursAt(a + p + c + s, i, p)
    ensures Substitute(a + p + c + s, p, s, password, decrypt) ==
      match decrypt(c, password)
      case Failure(e) => Failure(e)
      case Success(plain) => Success(a + plain)
  {
    var t := a + p + c + s;
    var i0, j0 := |a|, |a| + |p| + |c|;
    assert t[i0..i0 + |p|] == p;
    assert t[j0..j0 + |s|] == s;
    assert t[i0 + |p|..j0] == c;
    OccursAtIsSlice(t, i0, p);
    OccursAtIsSlice(t, j0, s);
    assert IsMatch(t, p, s, i0, j0);
    var found := FindFrom(t, p, s, 0);
    FindFromIsLeftmostGreedy(t, p, s, 0);
    FindFromMatches(t, p, s, 0);
    assert found == Some(Span(i0, j0));
    RewriteStep(t, p, s, password, decrypt, 0, Span(i0, j0));
    assert Payload(t, p, s, Span(i0, j0)) == c;
    assert FindFrom(t, p, s, |t|).None?;
    assert t[|t|..] == [];
    assert Rewrite(t, p, s, password, decrypt, |t|) == Success([]);
    assert t[0..i0] == a;
    var d := decrypt(c, password);
    if d.Success? {
      assert a + d.value + [] == a + d.value;
    }
  }

  /** A prefixed, suffixed payload on its own decrypts to its plaintext: with
      a decrypter that inverts the encryption, the round trip gives back the
      plaintext exactly. */
  lemma EncryptedValueRoundTrip(p: Text, s: Text, plain: Text, cipher: Text, password: string, decrypt: Decrypter)
    requires |p| > 0 && LineFree(cipher)
    requires decrypt(cipher, password) == Success(plain)
    ensures Substitute(p + cipher + s, p, s, password, decrypt) == Success(plain)
  {
    var t := p + cipher + s;
    assert [] + p + cipher + s == t;
    TrailingTokenIsDecrypted([], p, cipher, s, password, decrypt);
    assert [] + plain == plain;
  }

  /** The capture is greedy: two encrypted values on one line, as in
      "ENC(x) ENC(y)", form a single match whose payload runs from the first
      prefix to the last suffix ("x) ENC(y"), and that whole payload is what
      gets decrypted. */
  lemma GreedyCaptureJoinsTokensOnALine(p: Text, a: Text, s: Text, m: Text, password: string, decrypt: Decrypter)
    requires |p| > 0 && LineFree(a + s + m)
    ensures Substitute(p + a + s + m + s, p, s, password, decrypt) == decrypt(a + s + m, password)
  {
    var c := a + s + m;
    assert p + a + s + m + s == [] + p + c + s;
    TrailingTokenIsDecrypted([], p, c, s, password, decrypt);
    var d := decrypt(c, password);
    if d.Success? {
      assert [] + d.value == d.value;
    }
  }

  /** Prepending text to the outcome of a rewrite. */
  function Prepend(out: Text, r: Result<Text, string>): Result<Text, string>
  {
    match r
    case Failure(e) => Failure(e)
    case Success(v) => Success(out + v)
  }

  /** Prepending twice is prepending the concatenation once. */
  lemma PrependTwice(out: Text, more: Text, r: Result<Text, string>)
    ensures Prepend(out, Prepend(more, r)) == Prepend(out + more, r)
  {
    if r.Success? {
      assert out + (more + r.value) == (out + more) + r.value;
    }
  }

  /** A replacement function as regexp.ReplaceAllFunc takes it: from the
      matched text to its replacement; a Failure is a panic inside it. */
  type Replacer = Text -> Result<Text, string>

  /** regexp.ReplaceAllFunc from index k on, with out already produced, for
      any replacement function: the text before the leftmost match is
      appended, then repl's replacement of the matched text (suffix
      included), and the search resumes after the match; at the end the rest
      of the input is appended. The first failure aborts the whole call. */
  function ReplaceAllFrom(t: Text, p: Text, s: Text, repl: Replacer, out: Text, k: nat): (r: Result<Text, string>)
    requires |p| > 0 && k <= |t|
    ensures r.Failure? ==> FindFrom(t, p, s, k).Some?
    decreases |t| - k
  {
    match FindFrom(t, p, s, k)
    case None => Success(out + t[k..])
    case Some(sp) =>
      var e := sp.captureEnd + |s|;
      match repl(t[sp.start..e])
      case Failure(err) => Failure(err)
      case Success(replacement) => ReplaceAllFrom(t, p, s, repl, out + (t[k..sp.start] + replacement), e)
  }

  /** What ReplaceAllFunc has already produced stays, unchanged, at the
      front of its output: the buffer is only ever appended to. */
  lemma {:induction false} ReplaceAllFromKeepsOutput(t: Text, p: Text, s: Text, repl: Replacer, out: Text, k: nat)
    requires |p| > 0 && k <= |t|
    ensures var r := ReplaceAllFrom(t, p, s, repl, out, k);
      r.Success? ==> out <= r.value
    decreases |t| - k
  {
    match FindFrom(t, p, s, k)
    case None =>
    case Some(sp) =>
      var e := sp.captureEnd + |s|;
      match repl(t[sp.start..e])
      case Failure(_) =>
      case Success(replacement) =>
        var more := t[k..sp.start] + replacement;
        ReplaceAllFromKeepsOutput(t, p, s, repl, out + more, e);
        assert out <= out + more;
  }

  /** A failure of ReplaceAllFunc is the failure of the replacement function
      on the text of a match that the search finds at or after k. */
  lemma {:induction false} ReplaceAllFromFailsOnCallback(t: Text, p: Text, s: Text, repl: Replacer, out: Text, k: nat)
    requires |p| > 0 && k <= |t|
    ensures var r := ReplaceAllFrom(t, p, s, repl, out, k);
      r.Failure? ==>
        exists k', sp :: && k <= k' <= |t|
                         && FindFrom(t, p, s, k') == Some(sp)
                         && k <= sp.start
                         && repl(t[sp.start..sp.captureEnd + |s|]) == Failure(r.error)
    decreases |t| - k
  {
    var r := ReplaceAllFrom(t, p, s, repl, out, k);
    match FindFrom(t, p, s, k)
    case None =>
    case Some(sp) =>
      var e := sp.captureEnd + |s|;
      match repl(t[sp.start..e])
      case Failure(err) =>
        assert FindFrom(t, p, s, k) == Some(sp) && repl(t[sp.start..sp.captureEnd + |s|]) == Failure(r.error);
      case Success(replacement) =>
        ReplaceAllFromFailsOnCallback(t, p, s, repl, out + (t[k..sp.start] + replacement), e);
  }

  /** The callback _PBEWithMD5AndDES_Decrypt hands to ReplaceAllFunc. */
  function DecryptCallback(p: Text, s: Text, password: string, decrypt: Decrypter): Replacer
  {
    m => DecryptMatched(m, p, s, password, decrypt)
  }

  /** With the decrypting callback, ReplaceAllFunc decrypts each match's
      payload: after what it has produced so far, it computes the rewrite. */
  lemma {:induction false} DecryptCallbackRewrites(t: Text, p: Text, s: Text, password: string, decrypt: Decrypter, out: Text, k: nat)
    requires |p| > 0 && k <= |t|
    ensures ReplaceAllFrom(t, p, s, DecryptCallback(p, s, password, decrypt), out, k)
         == Prepend(out, Rewrite(t, p, s, password, decrypt, k))
    decreases |t| - k
  {
    match FindFrom(t, p, s, k)
    case None =>
    case Some(sp) =>
      var e := sp.captureEnd + |s|;
      RewriteStep(t, p, s, password, decrypt, k, sp);
      FindFromMatches(t, p, s, k);
      CallbackOnMatch(t, p, s, password, decrypt, sp);
      var plain := decrypt(Payload(t, p, s, sp), password);
      if plain.Success? {
        var more := t[k..sp.start] + plain.value;
        DecryptCallbackRewrites(t, p, s, password, decrypt, out + more, e);
        PrependTwice(out, more, Rewrite(t, p, s, password, decrypt, e));
      }
  }

  /** ReplaceAllFunc with the decrypting callback, on a whole document, is
      the substitution. */
  lemma DecryptCallbackSubstitutes(t: Text, p: Text, s: Text, password: string, decrypt: Decrypter)
    requires |p| > 0
    ensures ReplaceAllFrom(t, p, s, DecryptCallback(p, s, password, decrypt), [], 0) == Substitute(t, p, s, password, decrypt)
  {
    DecryptCallbackRewrites(t, p, s, password, decrypt, [], 0);
    var r := Substitute(t, p, s, password, decrypt);
    if r.Success? {
      assert [] + r.value == r.value;
    }
  }

  /** regexp.ReplaceAllFunc as the loop over the input that Go's
      implementation runs: copy the text up to the next match, append the
      replacement of the matched text, resume after the match. */
  method ReplaceAllFunc(t: Text, p: Text, s: Text, repl: Replacer) returns (r: Result<Text, string>)
    requires |p| > 0
    ensures r == ReplaceAllFrom(t, p, s, repl, [], 0)
  {
    var out: Text := [];
    var lastMatchEnd: nat := 0;
    var next := FindFrom(t, p, s, 0);
    while next.Some?
      invariant lastMatchEnd <= |t|
      invariant next == FindFrom(t, p, s, lastMatchEnd)
      invariant ReplaceAllFrom(t, p, s, repl, [], 0) == ReplaceAllFrom(t, p, s, repl, out, lastMatchEnd)
      decreases |t| - lastMatchEnd
    {
      var sp := next.value;
      var e := sp.captureEnd + |s|;
      var replacement := repl(t[sp.start..e]);
      if replacement.Failure? {
        return Failure(replacement.error);
      }
      out := out + (t[lastMatchEnd..sp.start] + replacement.value);
      lastMatchEnd := e;
      next := FindFrom(t, p, s, lastMatchEnd);
    }
    r := Success(out + t[lastMatchEnd..]);
  }
}
