/** Properties of the HTTP Signature codec: what `parse` accepts and rejects, the round trip
    through `to_header` and `parse`, and the agreement of `create` with `verify`. */
module HancockLaws {
  import opened Wrappers
  import opened Text
  import opened Foreign
  import opened Hancock

  // ---------------------------------------------------------------------------------------
  // parse

  /** The parameter loop runs over a concatenation as over its two halves in turn. */
  lemma {:induction false} ParseParamsConcat(acc: Fields, xs: seq<string>, ys: seq<string>, libs: Libs)
    ensures ParseParams(acc, xs + ys, libs) ==
            match ParseParams(acc, xs, libs)
            case Err(e) => Err(e)
            case Ok(f) => ParseParams(f, ys, libs)
    decreases |xs|
  {
    if |xs| > 0 {
      assert (xs + ys)[0] == xs[0];
      assert (xs + ys)[1..] == xs[1..] + ys;
      match ParseParam(acc, xs[0], libs)
      case Err(e) =>
      case Ok(next) => ParseParamsConcat(next, xs[1..], ys, libs);
    } else {
      assert xs + ys == ys;
    }
  }

  /** A parameter written as `key=value`, with no `=` in the key, is read back under that
      key with its value unquoted. */
  lemma ParseParamOf(acc: Fields, key: string, value: string, libs: Libs)
    requires '=' !in key
    ensures ParseParam(acc, Param(key, value), libs) == StoreParam(acc, key, ParseMaybeQuoted(value), libs)
  {
    var p := Param(key, value);
    IndexOfAfter(key, "=" + value, '=');
    assert p == key + ("=" + value);
    assert p[..|key|] == key;
    assert p[|key| + 1..] == value;
  }

  /** Every parameter of an accepted header holds an `=`. */
  lemma {:induction false} ParseParamsOkHasEquals(acc: Fields, params: seq<string>, libs: Libs)
    requires ParseParams(acc, params, libs).Ok?
    ensures forall i :: 0 <= i < |params| ==> '=' in params[i]
    decreases |params|
  {
    if |params| > 0 {
      var next := ParseParam(acc, params[0], libs);
      ParseParamsOkHasEquals(next.value, params[1..], libs);
      forall i | 1 <= i < |params| ensures '=' in params[i] {
        assert params[i] == params[1..][i - 1];
      }
    }
  }

  /** Without a `signature` parameter the loop ends without a signature. */
  lemma {:induction false} NoSignatureKey(acc: Fields, params: seq<string>, libs: Libs)
    requires acc.signature.None?
    requires forall i :: 0 <= i < |params| ==> ParamKey(params[i]) != Some("signature")
    requires ParseParams(acc, params, libs).Ok?
    ensures ParseParams(acc, params, libs).value.signature.None?
    decreases |params|
  {
    if |params| > 0 {
      var next := ParseParam(acc, params[0], libs);
      assert ParamKey(params[0]) != Some("signature");
      assert next.value.signature.None?;
      forall i | 0 <= i < |params[1..]| ensures ParamKey(params[1..][i]) != Some("signature") {
        assert params[1..][i] == params[i + 1];
      }
      NoSignatureKey(next.value, params[1..], libs);
    }
  }

  /** A signature at the end of the loop that was not there at the start comes from a
      parameter with the key `signature`, whose index is returned. */
  lemma {:induction false} SignatureKeyIndex(acc: Fields, params: seq<string>, libs: Libs) returns (k: nat)
    requires acc.signature.None?
    requires ParseParams(acc, params, libs).Ok?
    requires ParseParams(acc, params, libs).value.signature.Some?
    ensures k < |params| && ParamKey(params[k]) == Some("signature")
    decreases |params|
  {
    var next := ParseParam(acc, params[0], libs);
    if ParamKey(params[0]) == Some("signature") {
      k := 0;
    } else {
      assert next.value.signature.None?;
      var j := SignatureKeyIndex(next.value, params[1..], libs);
      assert params[1..][j] == params[j + 1];
      k := j + 1;
    }
  }

  /** What `parse` accepts: visible ASCII whose comma-separated parameters all hold an `=`
      and one of which has the key `signature`; a header without a `signature` parameter
      is refused with `MissingSignature` whenever its parameters are otherwise
      acceptable. */
  lemma ParseAccepts(value: string, libs: Libs)
    ensures ParseResult(value, libs).Ok? ==>
              AllChars(value, IsVisibleAscii) &&
              (forall i :: 0 <= i < |Split(value, ',')| ==> '=' in Split(value, ',')[i]) &&
              exists i :: 0 <= i < |Split(value, ',')| && ParamKey(Split(value, ',')[i]) == Some("signature")
    ensures AllChars(value, IsVisibleAscii) && ParseParams(NoFields, Split(value, ','), libs).Ok? &&
            (forall i :: 0 <= i < |Split(value, ',')| ==> ParamKey(Split(value, ',')[i]) != Some("signature")) ==>
              ParseResult(value, libs) == Err(MissingSignature)
  {
    var ps := Split(value, ',');
    if AllChars(value, IsVisibleAscii) && ParseParams(NoFields, ps, libs).Ok? {
      ParseParamsOkHasEquals(NoFields, ps, libs);
      if ParseParams(NoFields, ps, libs).value.signature.Some? {
        var k := SignatureKeyIndex(NoFields, ps, libs);
      }
      if forall i :: 0 <= i < |ps| ==> ParamKey(ps[i]) != Some("signature") {
        NoSignatureKey(NoFields, ps, libs);
      }
    }
  }

  /** A parameter without `=` fails the whole header with `MissingEquals` once the parameters
      before it are accepted. */
  lemma MissingEqualsFails(acc: Fields, before: seq<string>, param: string, after: seq<string>, libs: Libs)
    requires ParseParams(acc, before, libs).Ok?
    requires '=' !in param
    ensures ParseParams(acc, before + [param] + after, libs) == Err(MissingEquals)
  {
    assert before + [param] + after == before + ([param] + after);
    ParseParamsConcat(acc, before, [param] + after, libs);
    assert ([param] + after)[0] == param;
  }

  /** Keys are not trimmed: a `keyId` written after a space is an unknown key and is
      ignored. */
  lemma UntrimmedKeyIgnored(acc: Fields, value: string, libs: Libs)
    ensures ParseParam(acc, Param(" keyId", value), libs) == Ok(acc)
  {
    ParseParamOf(acc, " keyId", value, libs);
  }

  /** A repeated key overwrites the earlier value. */
  lemma RepeatedKeyIdLastWins(acc: Fields, first: string, second: string, libs: Libs)
    ensures ParseParams(acc, [Param("keyId", first), Param("keyId", second)], libs) ==
            Ok(acc.(keyId := Some(ParseMaybeQuoted(second))))
  {
    var ps := [Param("keyId", first), Param("keyId", second)];
    KnownKeys();
    var mid := acc.(keyId := Some(ParseMaybeQuoted(first)));
    ParseParamOf(acc, "keyId", first, libs);
    assert ParseParam(acc, ps[0], libs) == Ok(mid);
    ParseParamOf(mid, "keyId", second, libs);
    var rest := ps[1..];
    assert rest[0] == Param("keyId", second);
    assert ParseParam(mid, rest[0], libs) == Ok(mid.(keyId := Some(ParseMaybeQuoted(second))));
    var last := mid.(keyId := Some(ParseMaybeQuoted(second)));
    assert ParseParams(last, rest[1..], libs) == Ok(last);
    assert ParseParams(mid, rest, libs) == Ok(last);
  }

  // ---------------------------------------------------------------------------------------
  // to_header then parse

  /** A signature as `parse` gives it back from its rendering: a missing name list comes
      back as the list `(created)`, which is what the rendering writes for it. */
  function Normalised(sig: Signature): (r: Signature)
    ensures r.headers.Some?
    ensures r.(headers := sig.headers) == sig
  {
    if sig.headers.None? then sig.(headers := Some([Created])) else sig
  }

  lemma Base64TextParamChars(s: string)
    requires IsBase64Text(s)
    ensures AllChars(s, IsParamChar)
  {
    forall i | 0 <= i < |s| ensures IsParamChar(s[i]) { assert IsBase64Char(s[i]); }
  }

  lemma NoCommaIn(s: string)
    requires AllChars(s, IsParamChar)
    ensures ',' !in s
  {
    forall i | 0 <= i < |s| ensures s[i] != ',' { assert IsParamChar(s[i]); }
  }

  /** The names of a non-empty list, joined with spaces and split again, parse back to the
      list. */
  lemma NamesRoundTrip(ns: seq<SignatureHeaderName>)
    requires |ns| > 0
    ensures ParseNames(Split(Join(Names(ns), " "), ' ')) == Some(ns)
  {
    forall i | 0 <= i < |Names(ns)| ensures ' ' !in Names(ns)[i] {
      AsStrChars(ns[i]);
      forall k | 0 <= k < |AsStr(ns[i])| ensures AsStr(ns[i])[k] != ' ' { assert IsNameChar(AsStr(ns[i])[k]); }
    }
    SplitJoin(Names(ns), ' ');
    forall i | 0 <= i < |ns| ensures FromStr(Names(ns)[i]) == Some(ns[i]) {
      FromStrAsStr(ns[i]);
    }
    var r := ParseNames(Names(ns));
    assert r.Some?;
    forall i | 0 <= i < |ns| ensures r.value[i] == ns[i] {
      assert FromStr(Names(ns)[i]) == Some(r.value[i]);
    }
    assert r.value == ns;
  }

  /** The keys `to_header` writes are the keys `parse` knows. */
  lemma KnownKeys()
    ensures KeyOf("headers") == HeadersKey && KeyOf("algorithm") == AlgorithmKey
    ensures KeyOf("created") == CreatedKey && KeyOf("expires") == ExpiresKey
    ensures KeyOf("keyId") == KeyIdKey && KeyOf("signature") == SignatureKey
  {
  }

  lemma CreatedSplit()
    ensures Split("(created)", ' ') == ["(created)"]
  {
    var s: string := "(created)";
    forall i | 0 <= i < |s| ensures s[i] != ' ' { }
  }

  /** `(created)`, the rendering of a missing list, reads back as the list `(created)`. */
  lemma CreatedNamesRead()
    ensures ParseNames(Split("(created)", ' ')) == Some([Created])
  {
    CreatedSplit();
    var parts: seq<string> := ["(created)"];
    assert FromStr(parts[0]) == Some(Created);
    var none: seq<SignatureHeaderName> := [];
    assert ParseNames(parts[1..]) == Some(none);
    assert [Created] + none == [Created];
  }

  /** Reading the `headers` parameter back. */
  lemma ReadHeaders(sig: Signature, rest: seq<string>, libs: Libs)
    requires sig.headers != Some([])
    ensures ParseParams(NoFields, [Param("headers", Quoted(HeadersValue(sig)))] + rest, libs) ==
            ParseParams(NoFields.(headers := Normalised(sig).headers), rest, libs)
  {
    var p := Param("headers", Quoted(HeadersValue(sig)));
    ParseParamOf(NoFields, "headers", Quoted(HeadersValue(sig)), libs);
    ParseMaybeQuotedQuoted(HeadersValue(sig));
    KnownKeys();
    if sig.headers.None? {
      CreatedNamesRead();
    } else {
      NamesRoundTrip(sig.headers.value);
    }
    assert ParseParam(NoFields, p, libs) == Ok(NoFields.(headers := Normalised(sig).headers));
    assert ([p] + rest)[1..] == rest;
  }

  /** Reading an optional parameter back: nothing when it is absent, the field update when it
      is present. */
  lemma ReadOptional(acc: Fields, next: Fields, key: string, value: Option<string>, rest: seq<string>, libs: Libs)
    requires '=' !in key
    requires value.None? ==> next == acc
    requires value.Some? ==> StoreParam(acc, key, ParseMaybeQuoted(value.value), libs) == Ok(next)
    ensures ParseParams(acc, OptParams(key, value) + rest, libs) == ParseParams(next, rest, libs)
  {
    if value.Some? {
      ParseParamOf(acc, key, value.value, libs);
      assert (OptParams(key, value) + rest)[1..] == rest;
    } else {
      assert OptParams(key, value) + rest == rest;
    }
  }

  /** The text of a field that cannot start with a quote is kept as it is. */
  lemma UnquotedKept(s: string)
    requires |s| > 0 && s[0] != '"'
    ensures ParseMaybeQuoted(s) == s
  {
  }

  lemma ReadAlgorithm(acc: Fields, sig: Signature, rest: seq<string>, libs: Libs)
    requires acc.algorithm.None?
    ensures ParseParams(acc, OptParams("algorithm", AlgorithmText(sig)) + rest, libs) ==
            ParseParams(acc.(algorithm := sig.algorithm), rest, libs)
  {
    if sig.algorithm.Some? {
      var a := sig.algorithm.value;
      assert IsLowerTchar(a[0]);
      UnquotedKept(a);
      ParseHeaderNameOfName(a);
      KnownKeys();
    }
    ReadOptional(acc, acc.(algorithm := sig.algorithm), "algorithm", AlgorithmText(sig), rest, libs);
  }

  lemma ReadCreated(acc: Fields, sig: Signature, rest: seq<string>, libs: Libs)
    requires acc.created.None?
    ensures ParseParams(acc, OptParams("created", CreatedText(sig)) + rest, libs) ==
            ParseParams(acc.(created := sig.created), rest, libs)
  {
    if sig.created.Some? {
      UnquotedKept(Decimal(sig.created.value));
      ParseU64Decimal(sig.created.value);
      KnownKeys();
    }
    ReadOptional(acc, acc.(created := sig.created), "created", CreatedText(sig), rest, libs);
  }

  lemma ReadExpires(acc: Fields, sig: Signature, rest: seq<string>, libs: Libs)
    requires acc.expires.None?
    ensures ParseParams(acc, OptParams("expires", ExpiresText(sig)) + rest, libs) ==
            ParseParams(acc.(expires := sig.expires), rest, libs)
  {
    if sig.expires.Some? {
      UnquotedKept(Decimal(sig.expires.value));
      ParseU64Decimal(sig.expires.value);
      KnownKeys();
    }
    ReadOptional(acc, acc.(expires := sig.expires), "expires", ExpiresText(sig), rest, libs);
  }

  lemma ReadKeyId(acc: Fields, sig: Signature, rest: seq<string>, libs: Libs)
    requires acc.keyId.None?
    ensures ParseParams(acc, OptParams("keyId", KeyIdText(sig)) + rest, libs) ==
            ParseParams(acc.(keyId := sig.keyId), rest, libs)
  {
    if sig.keyId.Some? {
      ParseMaybeQuotedQuoted(sig.keyId.value);
      KnownKeys();
    }
    ReadOptional(acc, acc.(keyId := sig.keyId), "keyId", KeyIdText(sig), rest, libs);
  }

  lemma ReadSignature(acc: Fields, sig: Signature, libs: Libs)
    requires Base64Lawful(libs)
    ensures ParseParams(acc, [Param("signature", Quoted(libs.base64Encode(sig.signature)))], libs) ==
            Ok(acc.(signature := Some(sig.signature)))
  {
    var enc := libs.base64Encode(sig.signature);
    ParseParamOf(acc, "signature", Quoted(enc), libs);
    ParseMaybeQuotedQuoted(enc);
    KnownKeys();
    assert [Param("signature", Quoted(enc))][1..] == [];
  }

  /** The parameters of a rendering, read in order, fill in every field of the signature. */
  lemma ReadParams(sig: Signature, libs: Libs)
    requires Base64Lawful(libs)
    requires sig.headers != Some([])
    ensures ParseParams(NoFields, Params(sig, libs), libs) ==
            Ok(Fields(sig.algorithm, sig.created, sig.expires, Normalised(sig).headers, sig.keyId, Some(sig.signature)))
  {
    var h := [Param("headers", Quoted(HeadersValue(sig)))];
    var pa := OptParams("algorithm", AlgorithmText(sig));
    var pc := OptParams("created", CreatedText(sig));
    var pe := OptParams("expires", ExpiresText(sig));
    var pk := OptParams("keyId", KeyIdText(sig));
    var z := [Param("signature", Quoted(libs.base64Encode(sig.signature)))];
    assert Params(sig, libs) == h + (pa + (pc + (pe + (pk + z))));
    var f1 := NoFields.(headers := Normalised(sig).headers);
    ReadHeaders(sig, pa + (pc + (pe + (pk + z))), libs);
    ReadAlgorithm(f1, sig, pc + (pe + (pk + z)), libs);
    var f2 := f1.(algorithm := sig.algorithm);
    ReadCreated(f2, sig, pe + (pk + z), libs);
    var f3 := f2.(created := sig.created);
    ReadExpires(f3, sig, pk + z, libs);
    var f4 := f3.(expires := sig.expires);
    ReadKeyId(f4, sig, z, libs);
    ReadSignature(f4.(keyId := sig.keyId), sig, libs);
  }

  /** The rendering is visible ASCII, and splitting it at its commas gives back the
      parameters. */
  lemma HeaderTextSplits(sig: Signature, libs: Libs)
    requires Base64Lawful(libs)
    requires sig.keyId.Some? ==> AllChars(sig.keyId.value, IsParamChar)
    ensures AllChars(HeaderText(sig, libs), IsVisibleAscii)
    ensures Split(HeaderText(sig, libs), ',') == Params(sig, libs)
  {
    var enc := libs.base64Encode(sig.signature);
    var ps := Params(sig, libs);
    HeaderTextJoin(sig, libs);
    Base64TextParamChars(enc);
    ParamsChars(sig, libs, IsParamChar);
    forall i | 0 <= i < |ps| ensures ',' !in ps[i] { NoCommaIn(ps[i]); }
    SplitJoin(ps, ',');
    assert forall c :: IsParamChar(c) ==> IsVisibleAscii(c);
    if sig.keyId.Some? { AllCharsWeaken(sig.keyId.value, IsParamChar, IsVisibleAscii); }
    AllCharsWeaken(enc, IsParamChar, IsVisibleAscii);
    ParamsChars(sig, libs, IsVisibleAscii);
    AllCharsJoin(ps, ",", IsVisibleAscii);
  }

  /** Parsing the rendering of a signature gives the signature back, with a missing name
      list read as `(created)`. It needs base64 to round-trip, a key id of parameter
      characters, and a name list that is not empty (an empty one renders as `headers=""`,
      which does not parse). */
  lemma ParseToHeader(sig: Signature, libs: Libs)
    requires Base64Lawful(libs)
    requires sig.keyId.Some? ==> AllChars(sig.keyId.value, IsParamChar)
    requires sig.headers != Some([])
    ensures ParseResult(HeaderText(sig, libs), libs) == Ok(Normalised(sig))
  {
    HeaderTextSplits(sig, libs);
    ReadParams(sig, libs);
  }

  /** The exception: an empty name list renders as `headers=""`, which `parse` refuses. */
  lemma EmptyNamesRefused(sig: Signature, libs: Libs)
    requires sig.headers == Some([])
    ensures ParseParam(NoFields, Param("headers", Quoted(HeadersValue(sig))), libs) == Err(InvalidCharacters)
  {
    ParseParamOf(NoFields, "headers", Quoted(HeadersValue(sig)), libs);
    ParseMaybeQuotedQuoted(HeadersValue(sig));
    KnownKeys();
    assert HeadersValue(sig) == "";
    assert Split("", ' ') == [""];
    assert ParseHeaderName("").None?;
  }

  // ---------------------------------------------------------------------------------------
  // create and verify

  /** A signing callback and a verification callback that belong together: whatever the
      first signs, the second accepts. */
  ghost predicate KeyPair<E>(sign: string -> Result<seq<byte>, E>, verify: (string, seq<byte>) -> Result<bool, E>) {
    forall body :: sign(body).Ok? ==> verify(body, sign(body).value) == Ok(true)
  }

  /** `verify` returns `false` for an expired signature, whatever the callback would say. */
  lemma ExpiredIsFalse<E>(sig: Signature, req: Request, now: u64, verify: (string, seq<byte>) -> Result<bool, E>)
    requires sig.expires.Some? && sig.expires.value < now
    ensures VerifyResult(sig, req, now, verify) == Ok(false)
  {
  }

  /** A signature whose name list asks for `(created)` or `(expires)` without carrying the
      value is rejected, as is one with neither a list nor a creation time. */
  lemma {:induction false} MissingPseudoIsFalse<E>(sig: Signature, req: Request, now: u64, verify: (string, seq<byte>) -> Result<bool, E>)
    requires sig.headers.Some? ==>
               (Created in sig.headers.value && sig.created.None?) ||
               (Expires in sig.headers.value && sig.expires.None?)
    requires sig.headers.None? ==> sig.created.None?
    ensures VerifyResult(sig, req, now, verify) == Ok(false)
  {
    if sig.headers.Some? {
      var ns := sig.headers.value;
      var i :| 0 <= i < |ns| && ((ns[i] == Created && sig.created.None?) || (ns[i] == Expires && sig.expires.None?));
      assert Line(sig.created, sig.expires, req, ns[i]).None?;
    }
  }

  /** A signature made by `create` at `now` verifies, with a matching key pair, at any time up
      to and including its expiry. */
  lemma CreateThenVerify<E>(keyId: string, req: Request, lifetime: u64, now: u64, later: u64,
                            sign: string -> Result<seq<byte>, E>, verify: (string, seq<byte>) -> Result<bool, E>)
    requires now + lifetime < U64_LIMIT && later <= now + lifetime
    requires KeyPair(sign, verify)
    requires SigningString(Unsigned(keyId, req, lifetime, now), req).Some?
    ensures SignWith(Unsigned(keyId, req, lifetime, now), req, sign).Ok? ==>
              VerifyResult(SignWith(Unsigned(keyId, req, lifetime, now), req, sign).value, req, later, verify) == Ok(true)
  {
  }

  /** The same for `create_legacy`, whose signatures never expire. */
  lemma CreateLegacyThenVerify<E>(keyId: string, req: Request, later: u64,
                                  sign: string -> Result<seq<byte>, E>, verify: (string, seq<byte>) -> Result<bool, E>)
    requires KeyPair(sign, verify)
    requires SigningString(UnsignedLegacy(keyId, req), req).Some?
    ensures SignWith(UnsignedLegacy(keyId, req), req, sign).Ok? ==>
              VerifyResult(SignWith(UnsignedLegacy(keyId, req), req, sign).value, req, later, verify) == Ok(true)
  {
  }

  /** From one server to the other: a signature made by `create`, rendered by `to_header`
      and parsed again, verifies at any time up to its expiry. */
  lemma CreateRenderParseVerify<E>(keyId: string, req: Request, lifetime: u64, now: u64, later: u64, libs: Libs,
                                   sign: string -> Result<seq<byte>, E>, verify: (string, seq<byte>) -> Result<bool, E>)
    requires now + lifetime < U64_LIMIT && later <= now + lifetime
    requires KeyPair(sign, verify) && Base64Lawful(libs)
    requires AllChars(keyId, IsParamChar)
    requires SigningString(Unsigned(keyId, req, lifetime, now), req).Some?
    ensures SignWith(Unsigned(keyId, req, lifetime, now), req, sign).Ok? ==>
              var sig := SignWith(Unsigned(keyId, req, lifetime, now), req, sign).value;
              ParseResult(HeaderText(sig, libs), libs) == Ok(sig) &&
              VerifyResult(ParseResult(HeaderText(sig, libs), libs).value, req, later, verify) == Ok(true)
  {
    var r := SignWith(Unsigned(keyId, req, lifetime, now), req, sign);
    if r.Ok? {
      ParseToHeader(r.value, libs);
      CreateThenVerify(keyId, req, lifetime, now, later, sign, verify);
    }
  }
}
