/** HTTP Signatures after draft-cavage-http-signatures: the `Signature` header's parameters
    (section 2.1), its rendering, and the signing string of section 2.3, which `create`,
    `create_legacy` and `verify` build in a byte buffer. Header values are modelled as
    character strings; the clock is the `now` parameter; signing and verification are
    callbacks. */
module Hancock {
  import opened Wrappers
  import opened Text
  import opened Foreign

  // ---------------------------------------------------------------------------------------
  // Header names, header values, header maps (the `http` crate)

  /** A `tchar` of RFC 7230 section 3.2.6, the characters a header name may hold. */
  predicate IsTchar(c: char) {
    ('a' <= c <= 'z') || ('A' <= c <= 'Z') || ('0' <= c <= '9') || c in "!#$%&'*+-.^_`|~"
  }

  predicate IsLowerTchar(c: char) {
    IsTchar(c) && !('A' <= c <= 'Z')
  }

  /** An `http::header::HeaderName`: non-empty, `tchar`s only, stored in lower case. */
  type HeaderName = s: string | |s| > 0 && AllChars(s, IsLowerTchar) witness "a"

  /** `HeaderName::from_str`: accepts a non-empty run of `tchar`s and lower-cases it. */
  function ParseHeaderName(s: string): (r: Option<HeaderName>)
    ensures r.Some? <==> |s| > 0 && AllChars(s, IsTchar)
    ensures r.Some? ==> r.value == ToLowerAscii(s)
  {
    if |s| > 0 && AllChars(s, IsTchar) then
      var low := ToLowerAscii(s);
      assert AllChars(low, IsLowerTchar) by {
        forall i | 0 <= i < |low| ensures IsLowerTchar(low[i]) { assert IsTchar(s[i]); }
      }
      Some(low)
    else None
  }

  /** A header name reads back as itself. */
  lemma ParseHeaderNameOfName(n: HeaderName)
    ensures ParseHeaderName(n) == Some(n)
  {
    assert AllChars(n, IsTchar) by {
      forall i | 0 <= i < |n| ensures IsTchar(n[i]) { assert IsLowerTchar(n[i]); }
    }
    assert ToLowerAscii(n) == n by {
      forall i | 0 <= i < |n| ensures ToLowerAscii(n)[i] == n[i] { assert IsLowerTchar(n[i]); }
    }
  }

  /** A character `HeaderValue::to_str` accepts: visible ASCII or horizontal tab. */
  predicate IsVisibleAscii(c: char) {
    c == '\t' || (' ' <= c <= '~')
  }

  /** A character whose UTF-8 bytes `HeaderValue::from_bytes` accepts: anything but the
      control characters other than tab, and DEL. */
  predicate IsHeaderValueChar(c: char) {
    c == '\t' || (' ' <= c && c as int != 0x7F)
  }

  /** One header of an `http::header::HeaderMap`, with all its values in order. */
  datatype HeaderEntry = HeaderEntry(name: HeaderName, values: seq<string>)

  /** A `HeaderMap`: each name once, in iteration order, with at least one value. */
  type HeaderMap = entries: seq<HeaderEntry> | IsHeaderMap(entries) witness []

  predicate IsHeaderMap(entries: seq<HeaderEntry>) {
    (forall i, j :: 0 <= i < j < |entries| ==> entries[i].name != entries[j].name) &&
    (forall i :: 0 <= i < |entries| ==> |entries[i].values| > 0)
  }

  /** `HeaderMap::keys` */
  function Keys(h: HeaderMap): (ks: seq<HeaderName>)
    ensures |ks| == |h| && forall i :: 0 <= i < |h| ==> ks[i] == h[i].name
  {
    seq(|h|, i requires 0 <= i < |h| => h[i].name)
  }

  /** `HeaderMap::get_all`: the values of the header named `name`, none if it is absent. */
  function GetAll(h: seq<HeaderEntry>, name: HeaderName): (vs: seq<string>)
    ensures forall i :: 0 <= i < |h| && h[i].name == name && (forall j :: 0 <= j < i ==> h[j].name != name) ==> vs == h[i].values
    ensures (forall i :: 0 <= i < |h| ==> h[i].name != name) ==> vs == []
  {
    if |h| == 0 then []
    else if h[0].name == name then h[0].values
    else GetAll(h[1..], name)
  }

  /** `HeaderMap::get`: the first value of the header named `name`. */
  function Get(h: HeaderMap, name: HeaderName): Option<string> {
    var vs := GetAll(h, name);
    if |vs| > 0 then Some(vs[0]) else None
  }

  // ---------------------------------------------------------------------------------------
  // Header names of a signature

  datatype SignatureHeaderName = RequestTarget | Created | Expires | NormalHeader(name: HeaderName)

  /** `SignatureHeaderName::as_str`: a header name is itself, a pseudo-header its
      parenthesised name (`PseudoNamesParenthesised`). */
  function AsStr(n: SignatureHeaderName): (r: string)
    ensures |r| > 0
    ensures n.NormalHeader? ==> r == n.name
  {
    match n
    case RequestTarget => "(request-target)"
    case Created => "(created)"
    case Expires => "(expires)"
    case NormalHeader(h) => h
  }

  /** `SignatureHeaderName::from_str`: the three pseudo-header spellings, or else a header
      name (lower-cased); `None` is `InvalidHeaderName`. */
  function FromStr(s: string): (r: Option<SignatureHeaderName>)
    ensures r.Some? && !r.value.NormalHeader? ==> AsStr(r.value) == s
    ensures r.Some? && r.value.NormalHeader? ==> r.value.name == ToLowerAscii(s)
    ensures s != "(request-target)" && s != "(created)" && s != "(expires)" ==>
              r.None? || r.value.NormalHeader?
  {
    if s == "(request-target)" then Some(RequestTarget)
    else if s == "(created)" then Some(Created)
    else if s == "(expires)" then Some(Expires)
    else
      match ParseHeaderName(s)
      case Some(h) => Some(NormalHeader(h))
      case None => None
  }

  /** `from_str` undoes `as_str` for every name: a header name is never spelt like a
      pseudo-header, because `(` is not a `tchar`. */
  lemma FromStrAsStr(n: SignatureHeaderName)
    ensures FromStr(AsStr(n)) == Some(n)
  {
    if n.NormalHeader? {
      var h := n.name;
      assert IsLowerTchar(h[0]);
      assert h != "(request-target)" && h != "(created)" && h != "(expires)";
      ParseHeaderNameOfName(h);
    }
  }

  /** Only the pseudo-headers render with a parenthesis, so the two kinds of name never
      share a spelling. */
  lemma PseudoNamesParenthesised(n: SignatureHeaderName)
    ensures StartsWith(AsStr(n), "(") <==> !n.NormalHeader?
    ensures !n.NormalHeader? ==> EndsWith(AsStr(n), ")")
  {
    var r := AsStr(n);
    if n.NormalHeader? {
      assert IsLowerTchar(r[0]);
      assert r[..1] == [r[0]];
    } else {
      assert r[..1] == [r[0]] && r[|r| - 1..] == [r[|r| - 1]];
    }
  }

  /** The characters of a rendered name: visible, and never a space or a comma. */
  predicate IsNameChar(c: char) {
    IsVisibleAscii(c) && c != ' ' && c != ','
  }

  lemma AsStrChars(n: SignatureHeaderName)
    ensures |AsStr(n)| > 0 && AllChars(AsStr(n), IsNameChar)
  {
    if n.NormalHeader? {
      forall i | 0 <= i < |n.name| ensures IsNameChar(n.name[i]) { assert IsLowerTchar(n.name[i]); }
    }
  }

  // ---------------------------------------------------------------------------------------
  // parse_maybe_quoted

  /** Rust's `&s[i..j]`: `None` is the panic when `i > j` or `j` is past the end. */
  function Slice(s: string, i: int, j: int): (r: Option<string>)
    ensures r.Some? <==> 0 <= i <= j <= |s|
  {
    if 0 <= i <= j <= |s| then Some(s[i..j]) else None
  }

  /** `parse_maybe_quoted` as written: it slices `1..len-1` whenever the value starts and
      ends with `"`, which for the one-character value `"` is the range `1..0`, a panic
      (`None` here). */
  function ParseMaybeQuotedAsWritten(s: string): (r: Option<string>)
    ensures r.None? <==> s == "\""
    ensures r.Some? && !IsQuoted(s) ==> r.value == s
    ensures r.Some? && IsQuoted(s) ==> s == "\"" + r.value + "\""
  {
    if StartsWith(s, "\"") && EndsWith(s, "\"") then Slice(s, 1, |s| - 1) else Some(s)
  }

  predicate IsQuoted(s: string) {
    |s| >= 2 && s[0] == '"' && s[|s| - 1] == '"'
  }

  /** `parse_maybe_quoted` as intended: one surrounding pair of quotes is removed when there
      is a pair; anything else is returned unchanged. */
  function ParseMaybeQuoted(s: string): (r: string)
    ensures IsQuoted(s) ==> s == "\"" + r + "\""
    ensures !IsQuoted(s) ==> r == s
  {
    if IsQuoted(s) then s[1..|s| - 1] else s
  }

  /** Quoting and then unquoting gives back the text, whatever quotes it holds inside. */
  lemma ParseMaybeQuotedQuoted(x: string)
    ensures ParseMaybeQuoted("\"" + x + "\"") == x
  {
    var q := "\"" + x + "\"";
    assert IsQuoted(q);
    assert q[1..|q| - 1] == x;
  }

  /** The lone quote: the code as written panics, the intended reading keeps it. */
  lemma LoneQuotePanics()
    ensures ParseMaybeQuotedAsWritten("\"") == None
    ensures ParseMaybeQuoted("\"") == "\""
  {
  }

  /** Everywhere else the code as written and the intended reading agree. */
  lemma ParseMaybeQuotedAgrees(s: string)
    requires s != "\""
    ensures ParseMaybeQuotedAsWritten(s) == Some(ParseMaybeQuoted(s))
  {
  }

  // ---------------------------------------------------------------------------------------
  // The Signature record and parse

  /** A parsed or generated signature (the parameters of section 2.1). */
  datatype Signature = Signature(
    algorithm: Option<HeaderName>,
    created: Option<u64>,
    expires: Option<u64>,
    headers: Option<seq<SignatureHeaderName>>,
    keyId: Option<string>,
    signature: seq<byte>)

  const HS2019: HeaderName := "hs2019"

  datatype ParseError = MissingEquals | MissingSignature | InvalidCharacters | Number | Base64

  /** The six variables `parse` fills in as it reads the parameters. */
  datatype Fields = Fields(
    algorithm: Option<HeaderName>,
    created: Option<u64>,
    expires: Option<u64>,
    headers: Option<seq<SignatureHeaderName>>,
    keyId: Option<string>,
    signature: Option<seq<byte>>)

  const NoFields := Fields(None, None, None, None, None, None)

  /** Each space-separated name of a `headers` parameter through `from_str`; `None` as soon
      as one of them is not a name. */
  function ParseNames(parts: seq<string>): (r: Option<seq<SignatureHeaderName>>)
    ensures r.Some? <==> forall i :: 0 <= i < |parts| ==> FromStr(parts[i]).Some?
    ensures r.Some? ==>
              |r.value| == |parts| &&
              forall i :: 0 <= i < |parts| ==> FromStr(parts[i]) == Some(r.value[i])
  {
    if |parts| == 0 then Some([])
    else
      match FromStr(parts[0])
      case None => None
      case Some(n) =>
        match ParseNames(parts[1..])
        case None => None
        case Some(ns) => Some([n] + ns)
  }

  /** The key of a parameter: what precedes its first `=`, untrimmed. */
  function ParamKey(param: string): Option<string> {
    match IndexOf(param, '=')
    case Some(eq) => Some(param[..eq])
    case None => None
  }

  /** The parameter keys `parse` knows, matched exactly (no trimming, case-sensitive). */
  datatype Key = AlgorithmKey | CreatedKey | ExpiresKey | HeadersKey | KeyIdKey | SignatureKey | UnknownKey

  function KeyOf(key: string): (k: Key)
    ensures k == SignatureKey <==> key == "signature"
    ensures k == KeyIdKey <==> key == "keyId"
  {
    if key == "algorithm" then AlgorithmKey
    else if key == "created" then CreatedKey
    else if key == "expires" then ExpiresKey
    else if key == "headers" then HeadersKey
    else if key == "keyId" then KeyIdKey
    else if key == "signature" then SignatureKey
    else UnknownKey
  }

  /** Storing one unquoted parameter value under its key; unknown keys change nothing. */
  function StoreParam(acc: Fields, key: string, value: string, libs: Libs): (r: Result<Fields, ParseError>)
    ensures KeyOf(key) == UnknownKey ==> r == Ok(acc)
    ensures r.Ok? ==> r.value.signature.Some? == (acc.signature.Some? || key == "signature")
    ensures r != Err(MissingEquals)
  {
    match KeyOf(key)
    case AlgorithmKey =>
      (match ParseHeaderName(value)
       case None => Err(InvalidCharacters)
       case Some(a) => Ok(acc.(algorithm := Some(a))))
    case CreatedKey =>
      (match ParseU64(value)
       case None => Err(Number)
       case Some(n) => Ok(acc.(created := Some(n))))
    case ExpiresKey =>
      (match ParseU64(value)
       case None => Err(Number)
       case Some(n) => Ok(acc.(expires := Some(n))))
    case HeadersKey =>
      (match ParseNames(Split(value, ' '))
       case None => Err(InvalidCharacters)
       case Some(ns) => Ok(acc.(headers := Some(ns))))
    case KeyIdKey => Ok(acc.(keyId := Some(value)))
    case SignatureKey =>
      (match libs.base64Decode(value)
       case None => Err(Base64)
       case Some(b) => Ok(acc.(signature := Some(b))))
    case UnknownKey => Ok(acc)
  }

  /** One pass of `parse`'s loop: split the parameter at its first `=`, unquote the value
      and store it under its key. */
  function ParseParam(acc: Fields, param: string, libs: Libs): (r: Result<Fields, ParseError>)
    ensures r == Err(MissingEquals) <==> '=' !in param
    ensures ParamKey(param).Some? && KeyOf(ParamKey(param).value) == UnknownKey ==> r == Ok(acc)
    ensures r.Ok? ==> r.value.signature.Some? ==
                        (acc.signature.Some? || ParamKey(param) == Some("signature"))
  {
    match IndexOf(param, '=')
    case None => Err(MissingEquals)
    case Some(eq) => StoreParam(acc, param[..eq], ParseMaybeQuoted(param[eq + 1..]), libs)
  }

  /** The loop of `parse` over the comma-separated parameters, stopping at the first
      error. */
  function ParseParams(acc: Fields, params: seq<string>, libs: Libs): Result<Fields, ParseError>
    decreases |params|
  {
    if |params| == 0 then Ok(acc)
    else
      match ParseParam(acc, params[0], libs)
      case Err(e) => Err(e)
      case Ok(next) => ParseParams(next, params[1..], libs)
  }

  /** What `Signature::parse` returns for a header value. */
  function ParseResult(value: string, libs: Libs): Result<Signature, ParseError> {
    if !AllChars(value, IsVisibleAscii) then Err(InvalidCharacters)
    else
      match ParseParams(NoFields, Split(value, ','), libs)
      case Err(e) => Err(e)
      case Ok(f) =>
        if f.signature.None? then Err(MissingSignature)
        else Ok(Signature(f.algorithm, f.created, f.expires, f.headers, f.keyId, f.signature.value))
  }

  /** `Signature::parse`: the six variables, held here in one `Fields` record, are updated
      parameter by parameter. */
  method Parse(value: string, libs: Libs) returns (r: Result<Signature, ParseError>)
    ensures r == ParseResult(value, libs)
  {
    var f := NoFields;
    if !AllChars(value, IsVisibleAscii) {
      return Err(InvalidCharacters);
    }
    var params := Split(value, ',');
    var i := 0;
    while i < |params|
      invariant 0 <= i <= |params|
      invariant ParseParams(f, params[i..], libs) == ParseParams(NoFields, params, libs)
    {
      var step := ReadParam(f, params[i], libs);
      assert params[i..][1..] == params[i + 1..];
      if step.Err? {
        return Err(step.error);
      }
      f := step.value;
      i := i + 1;
    }
    if f.signature.None? {
      return Err(MissingSignature);
    }
    r := Ok(Signature(f.algorithm, f.created, f.expires, f.headers, f.keyId, f.signature.value));
  }

  /** The body of `parse`'s loop for one parameter. */
  method ReadParam(f: Fields, param: string, libs: Libs) returns (r: Result<Fields, ParseError>)
    ensures r == ParseParam(f, param, libs)
  {
    var eq := IndexOf(param, '=');
    if eq.None? {
      return Err(MissingEquals);
    }
    var key := param[..eq.value];
    var v := ParseMaybeQuoted(param[eq.value + 1..]);
    assert ParseParam(f, param, libs) == StoreParam(f, key, v, libs);
    match KeyOf(key) {
      case AlgorithmKey =>
        var a := ParseHeaderName(v);
        if a.None? {
          return Err(InvalidCharacters);
        }
        r := Ok(f.(algorithm := a));
      case CreatedKey =>
        var n := ParseU64(v);
        if n.None? {
          return Err(Number);
        }
        r := Ok(f.(created := n));
      case ExpiresKey =>
        var n := ParseU64(v);
        if n.None? {
          return Err(Number);
        }
        r := Ok(f.(expires := n));
      case HeadersKey =>
        var ns := ParseNames(Split(v, ' '));
        if ns.None? {
          return Err(InvalidCharacters);
        }
        r := Ok(f.(headers := ns));
      case KeyIdKey =>
        r := Ok(f.(keyId := Some(v)));
      case SignatureKey =>
        var b := libs.base64Decode(v);
        if b.None? {
          return Err(Base64);
        }
        r := Ok(f.(signature := Some(b.value)));
      case UnknownKey =>
        r := Ok(f);
    }
  }

  // ---------------------------------------------------------------------------------------
  // to_header

  function Param(key: string, value: string): string {
    key + "=" + value
  }

  function Quoted(s: string): string {
    "\"" + s + "\""
  }

  function Names(ns: seq<SignatureHeaderName>): (r: seq<string>)
    ensures |r| == |ns| && forall i :: 0 <= i < |ns| ==> r[i] == AsStr(ns[i])
  {
    seq(|ns|, i requires 0 <= i < |ns| => AsStr(ns[i]))
  }

  /** The value of the `headers` parameter: the names separated by spaces, or `(created)`
      when the signature has no list. */
  function HeadersValue(sig: Signature): string {
    match sig.headers
    case None => "(created)"
    case Some(ns) => Join(Names(ns), " ")
  }

  /** The optional fields of `sig` as `to_header` renders their values. */
  function AlgorithmText(sig: Signature): Option<string> {
    if sig.algorithm.Some? then Some(sig.algorithm.value) else None
  }

  function CreatedText(sig: Signature): Option<string> {
    if sig.created.Some? then Some(Decimal(sig.created.value)) else None
  }

  function ExpiresText(sig: Signature): Option<string> {
    if sig.expires.Some? then Some(Decimal(sig.expires.value)) else None
  }

  function KeyIdText(sig: Signature): Option<string> {
    if sig.keyId.Some? then Some(Quoted(sig.keyId.value)) else None
  }

  /** `key=value` as a one-element list when the field is present, no parameter otherwise. */
  function OptParams(key: string, value: Option<string>): seq<string> {
    if value.Some? then [Param(key, value.value)] else []
  }

  /** The parameters `to_header` writes, in its order: `headers`, then the `algorithm`,
      `created`, `expires` and `keyId` that are present, then `signature`. */
  function Params(sig: Signature, libs: Libs): seq<string> {
    [Param("headers", Quoted(HeadersValue(sig)))]
    + OptParams("algorithm", AlgorithmText(sig))
    + OptParams("created", CreatedText(sig))
    + OptParams("expires", ExpiresText(sig))
    + OptParams("keyId", KeyIdText(sig))
    + [Param("signature", Quoted(libs.base64Encode(sig.signature)))]
  }

  /** `,key=value` when the field is present, nothing otherwise. */
  function OptParam(key: string, value: Option<string>): string {
    if value.Some? then "," + Param(key, value.value) else ""
  }

  /** The header value `to_header` renders. */
  function HeaderText(sig: Signature, libs: Libs): string {
    Param("headers", Quoted(HeadersValue(sig)))
    + OptParam("algorithm", AlgorithmText(sig))
    + OptParam("created", CreatedText(sig))
    + OptParam("expires", ExpiresText(sig))
    + OptParam("keyId", KeyIdText(sig))
    + "," + Param("signature", Quoted(libs.base64Encode(sig.signature)))
  }

  /** Joining one more optional parameter appends it with its comma. */
  lemma JoinOptParams(xs: seq<string>, key: string, value: Option<string>)
    requires |xs| >= 1
    ensures Join(xs + OptParams(key, value), ",") == Join(xs, ",") + OptParam(key, value)
  {
    if value.Some? {
      JoinSnoc(xs, Param(key, value.value), ",");
    } else {
      assert xs + [] == xs;
    }
  }

  /** The rendering is the parameter list joined with commas. */
  lemma HeaderTextJoin(sig: Signature, libs: Libs)
    ensures HeaderText(sig, libs) == Join(Params(sig, libs), ",")
  {
    var h := [Param("headers", Quoted(HeadersValue(sig)))];
    var pa := OptParams("algorithm", AlgorithmText(sig));
    var pc := OptParams("created", CreatedText(sig));
    var pe := OptParams("expires", ExpiresText(sig));
    var pk := OptParams("keyId", KeyIdText(sig));
    JoinOptParams(h, "algorithm", AlgorithmText(sig));
    JoinOptParams(h + pa, "created", CreatedText(sig));
    JoinOptParams(h + pa + pc, "expires", ExpiresText(sig));
    JoinOptParams(h + pa + pc + pe, "keyId", KeyIdText(sig));
    JoinSnoc(h + pa + pc + pe + pk, Param("signature", Quoted(libs.base64Encode(sig.signature))), ",");
  }

  /** A character the rendering may hold in a parameter: visible ASCII other than `,`. */
  predicate IsParamChar(c: char) {
    IsVisibleAscii(c) && c != ','
  }

  lemma ParamChars(key: string, value: string, p: char -> bool)
    requires AllChars(key, p) && AllChars(value, p) && p('=')
    ensures AllChars(Param(key, value), p)
  {
    AllCharsConcat(key, "=", p);
    AllCharsConcat(key + "=", value, p);
  }

  lemma QuotedChars(value: string, p: char -> bool)
    requires AllChars(value, p) && p('"')
    ensures AllChars(Quoted(value), p)
  {
    AllCharsConcat("\"", value, p);
    AllCharsConcat("\"" + value, "\"", p);
  }

  lemma KeysAreParamChars()
    ensures AllChars("headers", IsParamChar) && AllChars("algorithm", IsParamChar)
    ensures AllChars("created", IsParamChar) && AllChars("expires", IsParamChar)
    ensures AllChars("keyId", IsParamChar) && AllChars("signature", IsParamChar)
    ensures AllChars("(created)", IsParamChar)
  {
    assert AllChars("headers", IsParamChar);
    assert AllChars("algorithm", IsParamChar);
    assert AllChars("created", IsParamChar);
    assert AllChars("expires", IsParamChar);
    assert AllChars("keyId", IsParamChar);
    assert AllChars("signature", IsParamChar);
    assert AllChars("(created)", IsParamChar);
  }

  /** Every string of `ps` is made of characters that satisfy `p`. */
  predicate AllParams(ps: seq<string>, p: char -> bool) {
    forall i :: 0 <= i < |ps| ==> AllChars(ps[i], p)
  }

  lemma AllParamsConcat(xs: seq<string>, ys: seq<string>, p: char -> bool)
    requires AllParams(xs, p) && AllParams(ys, p)
    ensures AllParams(xs + ys, p)
  {
    forall i | 0 <= i < |xs + ys| ensures AllChars((xs + ys)[i], p) {
      if i >= |xs| { assert (xs + ys)[i] == ys[i - |xs|]; }
    }
  }

  lemma HeadersParamChars(sig: Signature, p: char -> bool)
    requires forall c :: IsParamChar(c) ==> p(c)
    ensures AllChars(Param("headers", Quoted(HeadersValue(sig))), p)
  {
    assert p('=') && p('"') && p(' ');
    KeysAreParamChars();
    assert AllChars(HeadersValue(sig), p) by {
      match sig.headers
      case None =>
        AllCharsWeaken("(created)", IsParamChar, p);
      case Some(ns) =>
        forall i | 0 <= i < |Names(ns)| ensures AllChars(Names(ns)[i], p) {
          AsStrChars(ns[i]);
          AllCharsWeaken(AsStr(ns[i]), IsNameChar, p);
        }
        AllCharsJoin(Names(ns), " ", p);
    }
    QuotedChars(HeadersValue(sig), p);
    AllCharsWeaken("headers", IsParamChar, p);
    ParamChars("headers", Quoted(HeadersValue(sig)), p);
  }

  lemma AlgorithmParamChars(a: HeaderName, p: char -> bool)
    requires forall c :: IsParamChar(c) ==> p(c)
    ensures AllChars(Param("algorithm", a), p)
  {
    KeysAreParamChars();
    AllCharsWeaken("algorithm", IsParamChar, p);
    assert forall c :: IsLowerTchar(c) ==> IsParamChar(c);
    AllCharsWeaken(a, IsLowerTchar, p);
    ParamChars("algorithm", a, p);
  }

  lemma NumberParamChars(key: string, n: nat, p: char -> bool)
    requires key == "created" || key == "expires"
    requires forall c :: IsParamChar(c) ==> p(c)
    ensures AllChars(Param(key, Decimal(n)), p)
  {
    KeysAreParamChars();
    AllCharsWeaken(key, IsParamChar, p);
    AllCharsWeaken(Decimal(n), IsDigit, p);
    ParamChars(key, Decimal(n), p);
  }

  lemma QuotedParamChars(key: string, value: string, p: char -> bool)
    requires key == "keyId" || key == "signature"
    requires forall c :: IsParamChar(c) ==> p(c)
    requires AllChars(value, p)
    ensures AllChars(Param(key, Quoted(value)), p)
  {
    KeysAreParamChars();
    AllCharsWeaken(key, IsParamChar, p);
    QuotedChars(value, p);
    ParamChars(key, Quoted(value), p);
  }

  /** Every rendered parameter is made of characters that satisfy `p`, for any class `p`
      that holds the parameter characters, the key id and the base64 text. */
  lemma ParamsChars(sig: Signature, libs: Libs, p: char -> bool)
    requires forall c :: IsParamChar(c) ==> p(c)
    requires sig.keyId.Some? ==> AllChars(sig.keyId.value, p)
    requires AllChars(libs.base64Encode(sig.signature), p)
    ensures AllParams(Params(sig, libs), p)
  {
    HeadersParamChars(sig, p);
    var ps := [Param("headers", Quoted(HeadersValue(sig)))];
    if sig.algorithm.Some? {
      AlgorithmParamChars(sig.algorithm.value, p);
    }
    var pa := if sig.algorithm.Some? then [Param("algorithm", sig.algorithm.value)] else [];
    AllParamsConcat(ps, pa, p);
    if sig.created.Some? {
      NumberParamChars("created", sig.created.value, p);
    }
    var pc := if sig.created.Some? then [Param("created", Decimal(sig.created.value))] else [];
    AllParamsConcat(ps + pa, pc, p);
    if sig.expires.Some? {
      NumberParamChars("expires", sig.expires.value, p);
    }
    var pe := if sig.expires.Some? then [Param("expires", Decimal(sig.expires.value))] else [];
    AllParamsConcat(ps + pa + pc, pe, p);
    if sig.keyId.Some? {
      QuotedParamChars("keyId", sig.keyId.value, p);
    }
    var pk := if sig.keyId.Some? then [Param("keyId", Quoted(sig.keyId.value))] else [];
    AllParamsConcat(ps + pa + pc + pe, pk, p);
    QuotedParamChars("signature", libs.base64Encode(sig.signature), p);
    var pz := [Param("signature", Quoted(libs.base64Encode(sig.signature)))];
    AllParamsConcat(ps + pa + pc + pe + pk, pz, p);
    assert Params(sig, libs) == ps + pa + pc + pe + pk + pz;
  }

  /** The loop of `to_header` that writes the header names separated by spaces. */
  method WriteNames(params: string, ns: seq<SignatureHeaderName>) returns (out: string)
    ensures out == params + Join(Names(ns), " ")
  {
    out := params;
    var idx := 0;
    while idx < |ns|
      invariant 0 <= idx <= |ns|
      invariant out == params + Join(Names(ns[..idx]), " ")
    {
      assert Names(ns[..idx + 1]) == Names(ns[..idx]) + [AsStr(ns[idx])];
      if idx != 0 {
        out := out + " ";
        JoinSnoc(Names(ns[..idx]), AsStr(ns[idx]), " ");
      }
      out := out + AsStr(ns[idx]);
      idx := idx + 1;
    }
    assert ns[..|ns|] == ns;
  }

  /** The characters of the rendering are all ones a header value may hold. */
  lemma HeaderTextChars(sig: Signature, libs: Libs)
    requires sig.keyId.Some? ==> AllChars(sig.keyId.value, IsHeaderValueChar)
    requires AllChars(libs.base64Encode(sig.signature), IsHeaderValueChar)
    ensures AllChars(HeaderText(sig, libs), IsHeaderValueChar)
  {
    assert forall c :: IsParamChar(c) ==> IsHeaderValueChar(c);
    ParamsChars(sig, libs, IsHeaderValueChar);
    AllCharsJoin(Params(sig, libs), ",", IsHeaderValueChar);
    HeaderTextJoin(sig, libs);
  }

  /** The first step of `to_header`: `headers="..."` with the names, or `(created)`. */
  method WriteHeaders(sig: Signature) returns (params: string)
    ensures params == Param("headers", Quoted(HeadersValue(sig)))
  {
    params := "headers=\"";
    if sig.headers.Some? {
      params := WriteNames(params, sig.headers.value);
    } else {
      params := params + "(created)";
    }
    params := params + "\"";
  }

  /** One `if let Some(..)` step of `to_header`: writes `,key=value` for a present field. */
  method WriteOptional(params: string, key: string, value: Option<string>) returns (out: string)
    ensures out == params + OptParam(key, value)
  {
    out := params;
    if value.Some? {
      out := out + "," + key + "=" + value.value;
    }
  }

  /** `Signature::to_header`: the parameters appended one by one to a string, which
      `HeaderValue::from_bytes(..).unwrap()` then accepts; the two requirements are exactly
      what keeps that `unwrap` from panicking. */
  method ToHeader(sig: Signature, libs: Libs) returns (value: string)
    requires sig.keyId.Some? ==> AllChars(sig.keyId.value, IsHeaderValueChar)
    requires AllChars(libs.base64Encode(sig.signature), IsHeaderValueChar)
    ensures value == HeaderText(sig, libs)
    ensures AllChars(value, IsHeaderValueChar)
  {
    var params := WriteHeaders(sig);
    params := WriteOptional(params, "algorithm", AlgorithmText(sig));
    params := WriteOptional(params, "created", CreatedText(sig));
    params := WriteOptional(params, "expires", ExpiresText(sig));
    params := WriteOptional(params, "keyId", KeyIdText(sig));
    ghost var before := params;
    params := params + ",signature=\"";
    params := params + libs.base64Encode(sig.signature);
    params := params + "\"";
    assert params == before + "," + Param("signature", Quoted(libs.base64Encode(sig.signature)));
    HeaderTextChars(sig, libs);
    value := params;
  }

  // ---------------------------------------------------------------------------------------
  // The signing string (section 2.3), create, create_legacy and verify

  /** The parts of the request a signature covers: the method (`verb`), the path with its query, and
      the headers. */
  datatype Request = Request(verb: string, pathAndQuery: string, headers: HeaderMap)

  function RequestTargetLine(req: Request): string {
    "(request-target): " + ToLowerAscii(req.verb) + " " + req.pathAndQuery
  }

  function CreatedLine(created: u64): string {
    "(created): " + Decimal(created)
  }

  function ExpiresLine(expires: u64): string {
    "(expires): " + Decimal(expires)
  }

  /** `name: v1, v2, ...`: every value of the header, in order, after a comma and a space. */
  function HeaderLine(name: HeaderName, values: seq<string>): string {
    name + ": " + Join(values, ", ")
  }

  /** The line one name contributes to the signing string; `None` when the name is a
      pseudo-header whose value the signature does not carry. */
  function Line(created: Option<u64>, expires: Option<u64>, req: Request, n: SignatureHeaderName): Option<string> {
    match n
    case RequestTarget => Some(RequestTargetLine(req))
    case Created => if created.Some? then Some(CreatedLine(created.value)) else None
    case Expires => if expires.Some? then Some(ExpiresLine(expires.value)) else None
    case NormalHeader(h) => Some(HeaderLine(h, GetAll(req.headers, h)))
  }

  /** The lines of a list of names, `None` as soon as one of them has no line. */
  function Lines(created: Option<u64>, expires: Option<u64>, req: Request, ns: seq<SignatureHeaderName>): (r: Option<seq<string>>)
    ensures r.Some? <==> forall i :: 0 <= i < |ns| ==> Line(created, expires, req, ns[i]).Some?
    ensures r.Some? ==>
              |r.value| == |ns| &&
              forall i :: 0 <= i < |ns| ==> Line(created, expires, req, ns[i]) == Some(r.value[i])
  {
    if |ns| == 0 then Some([])
    else
      match Line(created, expires, req, ns[0])
      case None => None
      case Some(l) =>
        match Lines(created, expires, req, ns[1..])
        case None => None
        case Some(ls) => Some([l] + ls)
  }

  /** A list of lines, one per name, is the lines of those names. */
  lemma LinesOf(created: Option<u64>, expires: Option<u64>, req: Request, ns: seq<SignatureHeaderName>, ls: seq<string>)
    requires |ls| == |ns|
    requires forall i :: 0 <= i < |ns| ==> Line(created, expires, req, ns[i]) == Some(ls[i])
    ensures Lines(created, expires, req, ns) == Some(ls)
  {
    var r := Lines(created, expires, req, ns);
    assert r.Some?;
    forall i | 0 <= i < |ns| ensures r.value[i] == ls[i] {
      assert Line(created, expires, req, ns[i]) == Some(r.value[i]);
    }
    assert r.value == ls;
  }

  /** The signing string of `sig` for `req`: the lines of its names joined by newlines, or,
      without a name list, the `(created)` line alone. */
  function SigningString(sig: Signature, req: Request): Option<string> {
    match sig.headers
    case Some(ns) =>
      (match Lines(sig.created, sig.expires, req, ns)
       case Some(ls) => Some(Join(ls, "\n"))
       case None => None)
    case None =>
      if sig.created.Some? then Some(CreatedLine(sig.created.value)) else None
  }

  /** What `Signature::verify` returns at time `now`: `false` for an expired signature or one
      without a signing string, otherwise whatever the callback says about the signing string
      and the signature bytes. */
  function VerifyResult<E>(sig: Signature, req: Request, now: u64, verify: (string, seq<byte>) -> Result<bool, E>): Result<bool, E> {
    if sig.expires.Some? && sig.expires.value < now then Ok(false)
    else
      match SigningString(sig, req)
      case None => Ok(false)
      case Some(body) => verify(body, sig.signature)
  }

  /** The header names of a map, as names of a signature. */
  function NormalNames(ks: seq<HeaderName>): (r: seq<SignatureHeaderName>)
    ensures |r| == |ks| && forall i :: 0 <= i < |ks| ==> r[i] == NormalHeader(ks[i])
  {
    seq(|ks|, i requires 0 <= i < |ks| => NormalHeader(ks[i]))
  }

  /** The header lines `create` and `create_legacy` write, one per key of the map. */
  function HeaderLines(h: HeaderMap, ks: seq<HeaderName>): (r: seq<string>)
    ensures |r| == |ks| && forall i :: 0 <= i < |ks| ==> r[i] == HeaderLine(ks[i], GetAll(h, ks[i]))
  {
    seq(|ks|, i requires 0 <= i < |ks| => HeaderLine(ks[i], GetAll(h, ks[i])))
  }

  /** The signature `create` fills in before signing: `hs2019`, the creation and expiry times,
      the three pseudo-headers followed by every header of the request, and the key id. */
  function Unsigned(keyId: string, req: Request, lifetime: u64, now: u64): Signature
    requires now + lifetime < U64_LIMIT
  {
    Signature(Some(HS2019), Some(now), Some(now + lifetime),
              Some([RequestTarget, Created, Expires] + NormalNames(Keys(req.headers))), Some(keyId), [])
  }

  /** The signature `create_legacy` fills in: no times, `(request-target)` followed by every
      header of the request. */
  function UnsignedLegacy(keyId: string, req: Request): Signature {
    Signature(Some(HS2019), None, None,
              Some([RequestTarget] + NormalNames(Keys(req.headers))), Some(keyId), [])
  }

  /** Signing the signing string of `unsigned` with `sign`; the callback's error is passed
      on. */
  function SignWith<E>(unsigned: Signature, req: Request, sign: string -> Result<seq<byte>, E>): Result<Signature, E>
    requires SigningString(unsigned, req).Some?
  {
    match sign(SigningString(unsigned, req).value)
    case Ok(b) => Ok(unsigned.(signature := b))
    case Err(e) => Err(e)
  }

  /** The signing string of a `create` signature: the three pseudo-header lines, then a line
      per header. */
  lemma {:induction false} CreateSigningString(keyId: string, req: Request, lifetime: u64, now: u64)
    requires now + lifetime < U64_LIMIT
    ensures SigningString(Unsigned(keyId, req, lifetime, now), req) ==
            Some(Join([RequestTargetLine(req), CreatedLine(now), ExpiresLine(now + lifetime)]
                      + HeaderLines(req.headers, Keys(req.headers)), "\n"))
  {
    var sig := Unsigned(keyId, req, lifetime, now);
    var ns := sig.headers.value;
    var ls := [RequestTargetLine(req), CreatedLine(now), ExpiresLine(now + lifetime)]
              + HeaderLines(req.headers, Keys(req.headers));
    forall i | 0 <= i < |ns| ensures Line(sig.created, sig.expires, req, ns[i]) == Some(ls[i]) {
    }
    LinesOf(sig.created, sig.expires, req, ns, ls);
  }

  /** The signing string of a `create_legacy` signature: the request-target line, then a line
      per header. */
  lemma {:induction false} CreateLegacySigningString(keyId: string, req: Request)
    ensures SigningString(UnsignedLegacy(keyId, req), req) ==
            Some(Join([RequestTargetLine(req)] + HeaderLines(req.headers, Keys(req.headers)), "\n"))
  {
    var sig := UnsignedLegacy(keyId, req);
    var ns := sig.headers.value;
    var ls := [RequestTargetLine(req)] + HeaderLines(req.headers, Keys(req.headers));
    forall i | 0 <= i < |ns| ensures Line(sig.created, sig.expires, req, ns[i]) == Some(ls[i]) {
    }
    LinesOf(sig.created, sig.expires, req, ns, ls);
  }

  /** The `first` loop shared by all three builders: the values of one header separated by
      `, `. */
  method WriteValues(body: string, values: seq<string>) returns (out: string)
    ensures out == body + Join(values, ", ")
  {
    out := body;
    var first := true;
    var i := 0;
    while i < |values|
      invariant 0 <= i <= |values|
      invariant first <==> i == 0
      invariant out == body + Join(values[..i], ", ")
    {
      assert values[..i + 1] == values[..i] + [values[i]];
      if first {
        first := false;
      } else {
        out := out + ", ";
        JoinSnoc(values[..i], values[i], ", ");
      }
      out := out + values[i];
      i := i + 1;
    }
    assert values[..|values|] == values;
  }

  /** The loop of `create` and `create_legacy` over the request's headers: a newline, the
      name, `: ` and the values, for every key in iteration order. */
  method WriteHeaderLines(body: string, ghost lines: seq<string>, h: HeaderMap) returns (out: string)
    requires |lines| >= 1 && body == Join(lines, "\n")
    ensures out == Join(lines + HeaderLines(h, Keys(h)), "\n")
  {
    var ks := Keys(h);
    out := body;
    var i := 0;
    assert lines + HeaderLines(h, ks[..0]) == lines;
    while i < |ks|
      invariant 0 <= i <= |ks|
      invariant out == Join(lines + HeaderLines(h, ks[..i]), "\n")
    {
      ghost var done := lines + HeaderLines(h, ks[..i]);
      ghost var before := out;
      var values := GetAll(h, ks[i]);
      out := WriteValues(out + "\n" + ks[i] + ": ", values);
      assert out == before + "\n" + HeaderLine(ks[i], values);
      JoinSnoc(done, HeaderLine(ks[i], values), "\n");
      HeaderLinesSnoc(lines, h, ks, i);
      i := i + 1;
    }
    assert ks[..|ks|] == ks;
  }

  lemma HeaderLinesSnoc(lines: seq<string>, h: HeaderMap, ks: seq<HeaderName>, i: int)
    requires 0 <= i < |ks|
    ensures lines + HeaderLines(h, ks[..i + 1]) == lines + HeaderLines(h, ks[..i]) + [HeaderLine(ks[i], GetAll(h, ks[i]))]
  {
    assert HeaderLines(h, ks[..i + 1]) == HeaderLines(h, ks[..i]) + [HeaderLine(ks[i], GetAll(h, ks[i]))];
  }

  /** `Signature::create` at time `now`: the body written is the signing string `verify` will
      rebuild from the signature's own fields, and it is that body which is signed. The
      requirement is the overflow of `created + lifetime_secs`. */
  method Create<E>(keyId: string, req: Request, lifetime: u64, now: u64, sign: string -> Result<seq<byte>, E>)
    returns (r: Result<Signature, E>)
    requires now + lifetime < U64_LIMIT
    ensures SigningString(Unsigned(keyId, req, lifetime, now), req).Some?
    ensures r == SignWith(Unsigned(keyId, req, lifetime, now), req, sign)
  {
    var created := now;
    var expires := created + lifetime;
    var body := RequestTargetLine(req) + "\n" + CreatedLine(created) + "\n" + ExpiresLine(expires);
    ghost var lines := [RequestTargetLine(req), CreatedLine(created), ExpiresLine(expires)];
    assert body == Join(lines, "\n") by {
      JoinSnoc([RequestTargetLine(req)], CreatedLine(created), "\n");
      JoinSnoc([RequestTargetLine(req), CreatedLine(created)], ExpiresLine(expires), "\n");
    }
    body := WriteHeaderLines(body, lines, req.headers);
    var names := [RequestTarget, Created, Expires] + NormalNames(Keys(req.headers));
    CreateSigningString(keyId, req, lifetime, now);
    var signed := sign(body);
    if signed.Err? {
      return Err(signed.error);
    }
    r := Ok(Signature(Some(HS2019), Some(created), Some(expires), Some(names), Some(keyId), signed.value));
  }

  /** `Signature::create_legacy`: as `create` without `(created)` and `(expires)`; the
      requirement is its panic when the request has no `Date` header. */
  method CreateLegacy<E>(keyId: string, req: Request, sign: string -> Result<seq<byte>, E>)
    returns (r: Result<Signature, E>)
    requires "date" in Keys(req.headers)
    ensures SigningString(UnsignedLegacy(keyId, req), req).Some?
    ensures r == SignWith(UnsignedLegacy(keyId, req), req, sign)
  {
    var body := RequestTargetLine(req);
    assert body == Join([RequestTargetLine(req)], "\n");
    body := WriteHeaderLines(body, [RequestTargetLine(req)], req.headers);
    var names := [RequestTarget] + NormalNames(Keys(req.headers));
    CreateLegacySigningString(keyId, req);
    var signed := sign(body);
    if signed.Err? {
      return Err(signed.error);
    }
    r := Ok(Signature(Some(HS2019), None, None, Some(names), Some(keyId), signed.value));
  }

  /** The line for one name in `verify`'s loop, `None` when the pseudo-header's value is
      missing. */
  method WriteLine(body: string, sig: Signature, req: Request, n: SignatureHeaderName) returns (out: Option<string>)
    ensures out.None? <==> Line(sig.created, sig.expires, req, n).None?
    ensures out.Some? ==> out.value == body + Line(sig.created, sig.expires, req, n).value
  {
    match n {
      case RequestTarget =>
        out := Some(body + RequestTargetLine(req));
      case Created =>
        if sig.created.None? {
          return None;
        }
        out := Some(body + CreatedLine(sig.created.value));
      case Expires =>
        if sig.expires.None? {
          return None;
        }
        out := Some(body + ExpiresLine(sig.expires.value));
      case NormalHeader(h) =>
        var b := body + h + ": ";
        b := WriteValues(b, GetAll(req.headers, h));
        out := Some(b);
    }
  }

  /** `Signature::verify` at time `now`. */
  method Verify<E>(sig: Signature, req: Request, now: u64, verify: (string, seq<byte>) -> Result<bool, E>)
    returns (r: Result<bool, E>)
    ensures r == VerifyResult(sig, req, now, verify)
  {
    if sig.expires.Some? && sig.expires.value < now {
      return Ok(false);
    }
    var body := "";
    if sig.headers.Some? {
      var ns := sig.headers.value;
      ghost var lines: seq<string> := [];
      var idx := 0;
      while idx < |ns|
        invariant 0 <= idx <= |ns|
        invariant |lines| == idx
        invariant forall i :: 0 <= i < idx ==> Line(sig.created, sig.expires, req, ns[i]) == Some(lines[i])
        invariant body == Join(lines, "\n")
      {
        var sep := body;
        if idx != 0 {
          sep := body + "\n";
        }
        var next := WriteLine(sep, sig, req, ns[idx]);
        if next.None? {
          return Ok(false);
        }
        ghost var l := Line(sig.created, sig.expires, req, ns[idx]).value;
        if idx != 0 {
          JoinSnoc(lines, l, "\n");
        }
        body := next.value;
        lines := lines + [l];
        idx := idx + 1;
      }
      LinesOf(sig.created, sig.expires, req, ns, lines);
    } else {
      if sig.created.None? {
        return Ok(false);
      }
      body := CreatedLine(sig.created.value);
    }
    r := verify(body, sig.signature);
  }
}
