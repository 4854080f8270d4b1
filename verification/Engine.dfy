/** The engine's configuration, its random source, and the libraries it calls as parameters. */
module Engine {
  import opened GoStrings
  import opened Errors
  import opened Session
  import Base64url
  import FormEncoding

  datatype URL = URL(scheme: Bytes, host: Bytes, hostname: Bytes, path: Bytes,
                     rawQuery: Bytes, fragment: Bytes, hasUser: bool)

  datatype PrivateKey = PrivateKey(secret: nat)
  datatype PublicKey = PublicKey(point: nat)

  /** A JOSE header value: a string, or any other JSON value. */
  datatype HeaderValue = Text(text: Bytes) | OtherJSON

  datatype Opened = Opened(plain: Bytes, header: map<Bytes, HeaderValue>)

  /** A vp_token value: a JSON array of strings, or any other JSON value. */
  datatype VPValue = Strings(entries: seq<Bytes>) | NotStrings

  datatype Payload = Payload(vpToken: map<Bytes, VPValue>, state: Bytes)

  /** The members added to a signed DCAPI request. */
  datatype SignedPart = SignedPart(clientID: Bytes, expectedOrigins: seq<Bytes>, iat: int, exp: int)

  /** The claims of a request, without the members that are constants of the configuration. */
  datatype Request =
    | RequestObject(clientID: Bytes, responseURI: Bytes, nonce: Bytes, state: Bytes, query: Query,
                    key: PublicKey, kid: Bytes, iat: int, exp: int,
                    registration: Registration, wrprc: Option<Bytes>, transactionData: Option<seq<Bytes>>)
    | DCAPIClaims(nonce: Bytes, query: Query, key: PublicKey, kid: Bytes,
                  registration: Registration, wrprc: Option<Bytes>, transactionData: Option<seq<Bytes>>,
                  signed: Option<SignedPart>)

  /** The libraries behind the engine. `None` stands for an error return. */
  datatype Library = Library(
    parseURL: Bytes -> Option<URL>,
    validQuery: Query -> bool,
    claimable: Registration -> bool,
    isJSONObject: Bytes -> bool,
    isJSONDocument: Bytes -> bool,
    marshalKey: PrivateKey -> Option<Bytes>,
    parseKey: Bytes -> Option<PrivateKey>,
    publicOf: PrivateKey -> PublicKey,
    thumbprint: PublicKey -> Option<Bytes>,
    open: (PrivateKey, Bytes) -> Option<Opened>,
    parsePayload: Bytes -> Option<Payload>,
    parseDCAPIBody: Bytes -> Option<Bytes>,
    sign: Request -> Option<Bytes>,
    defaultPolicy: Policy,
    allowsAlg: Bytes -> bool,
    digest: (Bytes, Bytes) -> Bytes)

  /** What `url.Parse` does to query and fragment, and that an empty string has no scheme. */
  ghost predicate LawfulURLs(lib: Library) {
    forall raw: Bytes :: lib.parseURL(raw).Some? ==>
      var u := lib.parseURL(raw).value;
      && u.rawQuery == FormEncoding.QueryOf(raw)
      && (u.fragment == [] <==> FormEncoding.FragmentOf(raw) == [])
      && (u.scheme != [] ==> raw != [])
  }

  /** A key survives its serialization and has a non-empty thumbprint. */
  ghost predicate LawfulKeys(lib: Library) {
    && (forall k: PrivateKey :: lib.marshalKey(k).Some? ==> lib.parseKey(lib.marshalKey(k).value) == Some(k))
    && (forall k: PrivateKey :: lib.thumbprint(lib.publicOf(k)).Some? && |lib.thumbprint(lib.publicOf(k)).value| > 0)
  }

  ghost predicate Lawful(lib: Library) {
    LawfulURLs(lib) && LawfulKeys(lib)
  }

  const X509_SAN_DNS: Bytes := "x509_san_dns"
  const HTTPS: Bytes := "https"
  const DEFAULT_SESSION_TTL := 300_000_000_000
  const DEFAULT_MAX_RESPONSE_BODY := 1_048_576
  const TOKEN_BYTES: nat := 16

  /** A public key as the key provider and the leaf certificate hold it. */
  datatype SigningKey = EC(point: nat) | OtherKey

  datatype Leaf = Leaf(dnsNames: seq<Bytes>, key: SigningKey)

  /** The central algorithm policy. */
  datatype Policy = Policy(
    allowsCurve: Bytes -> bool, allowsJWE: (Bytes, Bytes) -> bool,
    allowsJWS: Bytes -> bool, allowsCOSE: int -> bool)

  /** `leaf` is the first certificate of the chain, if there is one. */
  datatype Config = Config(
    keys: Option<Bytes -> Option<SigningKey>>, signingKeyID: Bytes, leaf: Option<Leaf>,
    clientDNSName: Bytes, clientIDPrefix: Bytes, policy: Option<Policy>,
    requestURIBase: Bytes, requestURIFunc: Option<Bytes -> Bytes>, universalLinkBase: Bytes,
    sessionTTL: int, maxResponseBody: int,
    curve: Bytes, alg: Bytes, encValues: seq<Bytes>,
    sdjwtAlgs: seq<Bytes>, kbjwtAlgs: seq<Bytes>, mdocIssuerAlgs: seq<int>, mdocDeviceAlgs: seq<int>,
    enableTransactionData: bool)

  /** A constructed engine without its clock and random source. */
  datatype Settings = Settings(cfg: Config, clientID: Bytes, lib: Library)

  /** An absolute https URL whose query and fragment are empty. */
  predicate ValidBaseURL(lib: Library, raw: Bytes) {
    match lib.parseURL(raw)
    case None => false
    case Some(u) => u.scheme == HTTPS && u.host != [] && u.rawQuery == [] && u.fragment == []
  }

  /** `strings.TrimSuffix(s, "/")`: one slash at most is taken away, and only from the end. */
  function TrimSlash(s: Bytes): (r: Bytes)
    ensures s == r + ['/'] || (s == r && (|s| > 0 ==> s[|s| - 1] != '/'))
  {
    if |s| > 0 && s[|s| - 1] == '/' then s[..|s| - 1] else s
  }

  /** What every constructed engine satisfies. */
  ghost predicate Ready(e: Settings) {
    && e.cfg.sessionTTL > 0
    && e.cfg.maxResponseBody > 0
    && e.cfg.leaf.Some? && e.cfg.clientDNSName in e.cfg.leaf.value.dnsNames
    && e.clientID == X509_SAN_DNS + [':'] + e.cfg.clientDNSName
    && ValidBaseURL(e.lib, e.cfg.universalLinkBase)
  }

  function PolicyOf(cfg: Config, lib: Library): Policy {
    if cfg.policy.Some? then cfg.policy.value else lib.defaultPolicy
  }

  predicate AllAllowed<T>(values: seq<T>, allows: T -> bool) {
    forall i :: 0 <= i < |values| ==> allows(values[i])
  }

  lemma AllAllowedAppend<T>(a: seq<T>, b: seq<T>, allows: T -> bool)
    ensures AllAllowed(a + b, allows) <==> AllAllowed(a, allows) && AllAllowed(b, allows)
  {
    if AllAllowed(a + b, allows) {
      forall i | 0 <= i < |a| ensures allows(a[i]) { assert (a + b)[i] == a[i]; }
      forall i | 0 <= i < |b| ensures allows(b[i]) { assert (a + b)[|a| + i] == b[i]; }
    }
  }

  /** The algorithm lists against the policy, in the constructor's order. */
  ghost function AlgorithmFault(cfg: Config, policy: Policy): Option<Error> {
    if !policy.allowsCurve(cfg.curve) then Some(Wrapping(BadConfig, []))
    else if |cfg.encValues| == 0 then Some(Wrapping(BadConfig, []))
    else if !AllAllowed(cfg.encValues, enc => policy.allowsJWE(cfg.alg, enc)) then Some(Wrapping(BadConfig, []))
    else if |cfg.sdjwtAlgs| == 0 || |cfg.kbjwtAlgs| == 0 || |cfg.mdocIssuerAlgs| == 0 || |cfg.mdocDeviceAlgs| == 0 then
      Some(Wrapping(BadConfig, []))
    else if !AllAllowed(cfg.sdjwtAlgs + cfg.kbjwtAlgs, policy.allowsJWS) then Some(Wrapping(BadConfig, []))
    else if !AllAllowed(cfg.mdocIssuerAlgs + cfg.mdocDeviceAlgs, policy.allowsCOSE) then Some(Wrapping(BadConfig, []))
    else None
  }

  /** The constructor's first complaint about a configuration, if it has one. */
  ghost function ConfigFault(cfg: Config, lib: Library): Option<Error> {
    if cfg.keys.None? || cfg.signingKeyID == [] || cfg.leaf.None? || cfg.clientDNSName == [] then
      Some(Wrapping(BadConfig, []))
    else if cfg.clientIDPrefix != [] && cfg.clientIDPrefix != X509_SAN_DNS then
      Some(Wrapping(UnsupportedClientIDPrefix, cfg.clientIDPrefix))
    else if cfg.clientDNSName !in cfg.leaf.value.dnsNames then Some(Wrapping(SANMismatch, cfg.clientDNSName))
    else if cfg.keys.value(cfg.signingKeyID).None? then Some(WrappingForeign(BadConfig))
    else if cfg.keys.value(cfg.signingKeyID).value == OtherKey then Some(Wrapping(BadConfig, []))
    else if cfg.keys.value(cfg.signingKeyID).value != cfg.leaf.value.key then Some(Wrapping(BadConfig, []))
    else if AlgorithmFault(cfg, PolicyOf(cfg, lib)).Some? then AlgorithmFault(cfg, PolicyOf(cfg, lib))
    else if cfg.requestURIFunc.None? && !ValidBaseURL(lib, cfg.requestURIBase) then Some(WrappingForeign(BadConfig))
    else if !ValidBaseURL(lib, cfg.universalLinkBase) then Some(WrappingForeign(BadConfig))
    else None
  }

  /** An absolute https URL without query and fragment, as parsed. */
  predicate PlainHTTPS(u: Option<URL>) {
    u.Some? && u.value.scheme == "https" && u.value.host != [] && u.value.rawQuery == [] && u.value.fragment == []
  }

  /** Everything a configuration must satisfy. */
  ghost predicate Constructible(cfg: Config, lib: Library) {
    && cfg.leaf.Some? && cfg.clientDNSName != [] && cfg.clientDNSName in cfg.leaf.value.dnsNames
    && (cfg.clientIDPrefix == [] || cfg.clientIDPrefix == "x509_san_dns")
    && cfg.signingKeyID != [] && cfg.leaf.value.key.EC?
    && cfg.keys.Some? && cfg.keys.value(cfg.signingKeyID) == Some(cfg.leaf.value.key)
    && PolicyAllows(cfg, PolicyOf(cfg, lib))
    && (cfg.requestURIFunc.None? ==> PlainHTTPS(lib.parseURL(cfg.requestURIBase)))
    && PlainHTTPS(lib.parseURL(cfg.universalLinkBase))
  }

  /** Every configured algorithm is allowed, and no list is empty. */
  ghost predicate PolicyAllows(cfg: Config, policy: Policy) {
    && policy.allowsCurve(cfg.curve)
    && |cfg.encValues| > 0 && AllAllowed(cfg.encValues, enc => policy.allowsJWE(cfg.alg, enc))
    && |cfg.sdjwtAlgs| > 0 && |cfg.kbjwtAlgs| > 0 && |cfg.mdocIssuerAlgs| > 0 && |cfg.mdocDeviceAlgs| > 0
    && AllAllowed(cfg.sdjwtAlgs, policy.allowsJWS) && AllAllowed(cfg.kbjwtAlgs, policy.allowsJWS)
    && AllAllowed(cfg.mdocIssuerAlgs, policy.allowsCOSE) && AllAllowed(cfg.mdocDeviceAlgs, policy.allowsCOSE)
  }

  /** No complaint exactly when every check holds. The first complaint is about the prefix when keys, key id,
      chain and name are there and the prefix is a foreign one, about the SAN names when the prefix is right
      and the name is not among them, and about the configuration in every other case. */
  lemma ConfigFaultIff(cfg: Config, lib: Library)
    ensures ConfigFault(cfg, lib).None? <==> Constructible(cfg, lib)
    ensures ConfigFault(cfg, lib).Some? ==>
              var err := ConfigFault(cfg, lib).value;
              && OneSentinel(err)
              && var present := cfg.keys.Some? && cfg.signingKeyID != [] && cfg.leaf.Some? && cfg.clientDNSName != [];
                 if present && cfg.clientIDPrefix !in [[], "x509_san_dns"] then Mentions(err, UnsupportedClientIDPrefix)
                 else if present && cfg.clientDNSName !in cfg.leaf.value.dnsNames then Mentions(err, SANMismatch)
                 else Mentions(err, BadConfig)
  {
    AlgorithmFaultIff(cfg, PolicyOf(cfg, lib));
  }

  lemma AlgorithmFaultIff(cfg: Config, policy: Policy)
    ensures AlgorithmFault(cfg, policy).None? <==> PolicyAllows(cfg, policy)
    ensures AlgorithmFault(cfg, policy).Some? ==>
              OneSentinel(AlgorithmFault(cfg, policy).value) && Mentions(AlgorithmFault(cfg, policy).value, BadConfig)
  {
    AllAllowedAppend(cfg.sdjwtAlgs, cfg.kbjwtAlgs, policy.allowsJWS);
    AllAllowedAppend(cfg.mdocIssuerAlgs, cfg.mdocDeviceAlgs, policy.allowsCOSE);
  }

  /** The algorithm checks of the constructor, list by list. */
  method CheckAlgorithms(cfg: Config, policy: Policy) returns (fault: Option<Error>)
    ensures fault == AlgorithmFault(cfg, policy)
  {
    if !policy.allowsCurve(cfg.curve) { return Some(Wrapping(BadConfig, [])); }
    if |cfg.encValues| == 0 { return Some(Wrapping(BadConfig, [])); }
    for i := 0 to |cfg.encValues|
      invariant forall k :: 0 <= k < i ==> policy.allowsJWE(cfg.alg, cfg.encValues[k])
    {
      if !policy.allowsJWE(cfg.alg, cfg.encValues[i]) { return Some(Wrapping(BadConfig, [])); }
    }
    if |cfg.sdjwtAlgs| == 0 || |cfg.kbjwtAlgs| == 0 || |cfg.mdocIssuerAlgs| == 0 || |cfg.mdocDeviceAlgs| == 0 {
      return Some(Wrapping(BadConfig, []));
    }
    var jws, cose := cfg.sdjwtAlgs + cfg.kbjwtAlgs, cfg.mdocIssuerAlgs + cfg.mdocDeviceAlgs;
    for i := 0 to |jws|
      invariant forall k :: 0 <= k < i ==> policy.allowsJWS(jws[k])
    {
      if !policy.allowsJWS(jws[i]) { return Some(Wrapping(BadConfig, [])); }
    }
    for i := 0 to |cose|
      invariant forall k :: 0 <= k < i ==> policy.allowsCOSE(cose[k])
    {
      if !policy.allowsCOSE(cose[i]) { return Some(Wrapping(BadConfig, [])); }
    }
    return None;
  }

  /** The checks in order, then the defaults. */
  method New(cfg: Config, lib: Library) returns (r: Result<Settings>)
    ensures r.Ok? <==> Constructible(cfg, lib)
    ensures r.Err? ==> Some(r.error) == ConfigFault(cfg, lib)
    ensures r.Ok? ==> r.value.clientID == "x509_san_dns" + ":" + cfg.clientDNSName
    ensures r.Ok? ==> Ready(r.value) && r.value.lib == lib
    ensures r.Ok? ==>
              r.value.cfg == cfg.(requestURIBase := TrimSlash(cfg.requestURIBase),
                                  policy := Some(PolicyOf(cfg, lib)),
                                  sessionTTL := if cfg.sessionTTL > 0 then cfg.sessionTTL else DEFAULT_SESSION_TTL,
                                  maxResponseBody := if cfg.maxResponseBody > 0 then cfg.maxResponseBody
                                                     else DEFAULT_MAX_RESPONSE_BODY)
  {
    ConfigFaultIff(cfg, lib);
    if cfg.keys.None? { return Err(Wrapping(BadConfig, [])); }
    if cfg.signingKeyID == [] { return Err(Wrapping(BadConfig, [])); }
    if cfg.leaf.None? { return Err(Wrapping(BadConfig, [])); }
    if cfg.clientDNSName == [] { return Err(Wrapping(BadConfig, [])); }
    if cfg.clientIDPrefix != [] && cfg.clientIDPrefix != X509_SAN_DNS {
      return Err(Wrapping(UnsupportedClientIDPrefix, cfg.clientIDPrefix));
    }
    if cfg.clientDNSName !in cfg.leaf.value.dnsNames { return Err(Wrapping(SANMismatch, cfg.clientDNSName)); }
    var pub := cfg.keys.value(cfg.signingKeyID);
    if pub.None? { return Err(WrappingForeign(BadConfig)); }
    if pub.value == OtherKey || pub.value != cfg.leaf.value.key { return Err(Wrapping(BadConfig, [])); }
    var policy := PolicyOf(cfg, lib);
    var fault := CheckAlgorithms(cfg, policy);
    if fault.Some? { return Err(fault.value); }
    if cfg.requestURIFunc.None? {
      if !ValidBaseURL(lib, cfg.requestURIBase) { return Err(WrappingForeign(BadConfig)); }
    }
    if !ValidBaseURL(lib, cfg.universalLinkBase) { return Err(WrappingForeign(BadConfig)); }
    var e := Settings(cfg, X509_SAN_DNS + [':'] + cfg.clientDNSName, lib);
    e := e.(cfg := e.cfg.(requestURIBase := TrimSlash(cfg.requestURIBase)));
    if e.cfg.sessionTTL <= 0 { e := e.(cfg := e.cfg.(sessionTTL := DEFAULT_SESSION_TTL)); }
    if e.cfg.maxResponseBody <= 0 { e := e.(cfg := e.cfg.(maxResponseBody := DEFAULT_MAX_RESPONSE_BODY)); }
    return Ok(e.(cfg := e.cfg.(policy := Some(policy))));
  }

  /** The injected clock. */
  class Clock {
    var now: int

    constructor (now: int)
      ensures this.now == now
    {
      this.now := now;
    }
  }

  /** The injected random reader: a tape of bytes read from left to right. */
  datatype TapeState = MakeTape(bytes: Bytes, pos: nat)

  type Tape = t: TapeState | t.pos <= |t.bytes| witness MakeTape([], 0)

  class RandReader {
    var tape: Tape

    constructor (bytes: Bytes)
      ensures tape == MakeTape(bytes, 0)
    {
      tape := MakeTape(bytes, 0);
    }

    /** `randToken(e.rand, 16)`: read a block and encode it. A short tape is used up and fails. */
    method Token() returns (r: Result<Bytes>)
      modifies this
      ensures (tape, r) == NextToken(old(tape))
    {
      var b := new Byte[TOKEN_BYTES];
      var n := 0;
      while n < TOKEN_BYTES && tape.pos < |tape.bytes|
        invariant n <= TOKEN_BYTES && tape.pos == old(tape.pos) + n <= |tape.bytes|
        invariant tape.bytes == old(tape.bytes)
        invariant b[..n] == tape.bytes[old(tape.pos)..tape.pos]
      {
        b[n] := tape.bytes[tape.pos];
        n, tape := n + 1, tape.(pos := tape.pos + 1);
      }
      if n < TOKEN_BYTES { return Err(Wrap([], [Foreign])); }
      assert b[..] == b[..n];
      return Ok(Base64url.Encode(b[..]));
    }
  }

  function NextToken(t: Tape): (r: (Tape, Result<Bytes>))
    ensures r.0.bytes == t.bytes && r.0.pos >= t.pos
  {
    if t.pos + TOKEN_BYTES <= |t.bytes| then
      (t.(pos := t.pos + TOKEN_BYTES), Ok(Base64url.Encode(t.bytes[t.pos..t.pos + TOKEN_BYTES])))
    else (t.(pos := |t.bytes|), Err(Wrap([], [Foreign])))
  }

  /** The token encoding of block `k` of the tape. */
  function BlockToken(bytes: Bytes, k: nat): Bytes
    requires TOKEN_BYTES * (k + 1) <= |bytes|
  {
    Base64url.Encode(bytes[TOKEN_BYTES * k..TOKEN_BYTES * (k + 1)])
  }

  /** A token is 22 letters of the unreserved alphabet. */
  lemma TokenShape(t: Tape)
    requires NextToken(t).1.Ok?
    ensures |NextToken(t).1.value| == 22 && Base64url.AllLetters(NextToken(t).1.value)
  {
    Base64url.EncodeShape(t.bytes[t.pos..t.pos + TOKEN_BYTES]);
  }

  /** `Session.ephemeralPrivateKey`. */
  function EphemeralKey(lib: Library, s: SessionData): Result<PrivateKey> {
    match lib.parseKey(s.ephemeralKey)
    case None => Err(WrappingForeign(SessionInvalid))
    case Some(k) => Ok(k)
  }

  /** The engine object: settings fixed at construction, an injected clock and random source. */
  class Engine {
    const setup: Settings
    const clock: Clock
    const rand: RandReader

    constructor (setup: Settings, clock: Clock, rand: RandReader)
      ensures this.setup == setup && this.clock == clock && this.rand == rand
    {
      this.setup, this.clock, this.rand := setup, clock, rand;
    }
  }
}
