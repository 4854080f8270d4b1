/** The two response paths: `ProcessResponse` for direct_post.jwt (section 8.2 of OpenID4VP 1.0)
    and `ProcessDCAPIResponse` (Annex A). */
module Response {
  import opened GoStrings
  import opened Errors
  import opened Session
  import opened Engine
  import opened FormEncoding
  import opened VPToken
  import Base64url
  import ErrorResponse
  import RequestObject

  const APV: Bytes := "apv"
  const RESPONSE: Bytes := "response"
  const ERROR: Bytes := "error"
  const ERROR_DESCRIPTION: Bytes := "error_description"
  const STATE: Bytes := "state"

  /** `checkAgreementInfo`: an absent apv is tolerated, a present one must encode the nonce. */
  function AgreementFault(header: map<Bytes, HeaderValue>, s: SessionData): Option<Error> {
    if APV !in header then None
    else
      match header[APV]
      case OtherJSON => Some(Wrapping(MalformedResponse, []))
      case Text(text) =>
        match Base64url.Decode(text)
        case None => Some(Wrapping(MalformedResponse, []))
        case Some(raw) => if raw != s.nonce then Some(Is(APVMismatch)) else None
  }

  /** Decryption with the session's key, agreement check, thumbprint and payload parse. */
  function OpenResponse(e: Settings, s: SessionData, jwe: Bytes): Result<(Payload, Bytes)> {
    var k :- EphemeralKey(e.lib, s);
    match e.lib.open(k, jwe)
    case None => Err(WrappingForeign(DecryptFailed))
    case Some(content) =>
      match AgreementFault(content.header, s)
      case Some(fault) => Err(fault)
      case None =>
        match e.lib.thumbprint(e.lib.publicOf(k))
        case None => Err(WrappingForeign(SessionInvalid))
        case Some(thumbprint) =>
          match e.lib.parsePayload(content.plain)
          case None => Err(Wrapping(MalformedResponse, []))
          case Some(payload) =>
            if payload.vpToken == map[] then Err(Wrapping(MalformedResponse, [])) else Ok((payload, thumbprint))
  }

  /** `walletErrorFrom`. */
  function WalletErrorFrom(s: SessionData, pairs: seq<Pair>): Error {
    if Get(pairs, STATE) != [] && Get(pairs, STATE) != s.state then Is(StateMismatch)
    else FromWallet(Clip(Get(pairs, ERROR), ErrorResponse.MAX_WALLET_ERROR_LEN),
                    Clip(Get(pairs, ERROR_DESCRIPTION), ErrorResponse.MAX_WALLET_ERROR_LEN))
  }

  /** The gates of `ProcessResponse` up to the JWE: session state, body size, form, wallet error. */
  function FormGates(e: Settings, s: SessionData, now: int, body: Bytes): Result<Bytes> {
    if s.flow == DCAPI then Err(Wrapping(FlowMismatch, []))
    else if !s.consumed then Err(Is(SessionNotConsumed))
    else if !(now < s.expiresAt) then Err(Is(SessionExpired))
    else if |body| > e.cfg.maxResponseBody then Err(Is(BodyTooLarge))
    else
      var form := ParseQuery(body);
      if form.bad then Err(Wrapping(MalformedResponse, []))
      else if Get(form.pairs, ERROR) != [] then Err(WalletErrorFrom(s, form.pairs))
      else
        var resp := ValuesOf(form.pairs, RESPONSE);
        if |resp| != 1 || resp[0] == [] then Err(Wrapping(MalformedResponse, [])) else Ok(resp[0])
  }

  /** All gates of `ProcessResponse` before the mint. */
  ghost function Presented(e: Settings, s: SessionData, now: int, body: Bytes): Result<seq<Presentation>> {
    var jwe :- FormGates(e, s, now, body);
    var (payload, thumbprint) :- OpenResponse(e, s, jwe);
    if payload.state != s.state then Err(Is(StateMismatch)) else Flatten(s, payload.vpToken, thumbprint)
  }

  /** An accepted response: the presentations and the minted code, empty when none is minted. */
  datatype Accepted = Accepted(presentations: seq<Presentation>, code: Bytes)

  /** What `ProcessResponse` returns and what it leaves in the session and of the tape. */
  ghost function Respond(e: Settings, s: SessionData, now: int, body: Bytes, tape: Tape)
    : (SessionData, Tape, Result<Accepted>)
  {
    match Presented(e, s, now, body)
    case Err(fault) => (s, tape, Err(fault))
    case Ok(prs) =>
      if s.flow != SameDevice then (s, tape, Ok(Accepted(prs, []))) else
      var (t, c) := NextToken(tape);
      match c
      case Err(fault) => (s, t, Err(fault))
      case Ok(code) => (s.(responseCode := code, responseCodeUsed := false), t, Ok(Accepted(prs, code)))
  }

  method ProcessResponse(e: Engine, s: Session?, body: Bytes) returns (r: Result<Accepted>)
    modifies s, e.rand
    ensures s == null ==> r == Err(Is(SessionInvalid)) && e.rand.tape == old(e.rand.tape)
    ensures s != null ==>
              (s.Snapshot(), e.rand.tape, r) == Respond(e.setup, old(s.Snapshot()), e.clock.now, body, old(e.rand.tape))
  {
    if s == null { return Err(Is(SessionInvalid)); }
    var jwe := FormGates(e.setup, s.Snapshot(), e.clock.now, body);
    if jwe.Err? { return Err(jwe.error); }
    var content := OpenResponse(e.setup, s.Snapshot(), jwe.value);
    if content.Err? { return Err(content.error); }
    var (payload, thumbprint) := content.value;
    if payload.state != s.state { return Err(Is(StateMismatch)); }
    var prs := PresentationsFromVPToken(s, payload.vpToken, thumbprint);
    if prs.Err? { return Err(prs.error); }
    var code: Bytes := [];
    if s.flow == SameDevice {
      var c := e.rand.Token();
      if c.Err? { return Err(c.error); }
      code := c.value;
      s.responseCode := c.value;
      s.responseCodeUsed := false;
    }
    return Ok(Accepted(prs.value, code));
  }

  /** Every gate of the encrypted part, as one condition on the decrypted content. */
  ghost predicate OpensAs(e: Settings, s: SessionData, jwe: Bytes, k: PrivateKey, content: Opened, payload: Payload) {
    && e.lib.parseKey(s.ephemeralKey) == Some(k)
    && e.lib.open(k, jwe) == Some(content)
    && ("apv" in content.header ==>
          content.header["apv"].Text? && Base64url.Decode(content.header["apv"].text) == Some(s.nonce))
    && e.lib.thumbprint(e.lib.publicOf(k)).Some?
    && e.lib.parsePayload(content.plain) == Some(payload)
    && payload.vpToken != map[]
    && forall id :: id in payload.vpToken ==> GoodKey(s.query, payload.vpToken, id)
  }

  ghost predicate FormCarries(body: Bytes, jwe: Bytes) {
    var form := ParseQuery(body);
    !form.bad && Get(form.pairs, "error") == [] && ValuesOf(form.pairs, "response") == [jwe] && jwe != []
  }

  /** Every gate of the direct_post.jwt path. */
  ghost predicate Gates(e: Settings, s: SessionData, now: int, body: Bytes, tape: Tape,
                        jwe: Bytes, k: PrivateKey, content: Opened, payload: Payload)
  {
    && s.flow != DCAPI && s.consumed && now < s.expiresAt
    && |body| <= e.cfg.maxResponseBody
    && FormCarries(body, jwe)
    && OpensAs(e, s, jwe, k, content, payload)
    && payload.state == s.state
    && (s.flow == SameDevice ==> tape.pos + TOKEN_BYTES <= |tape.bytes|)
  }

  lemma OpenResponseIff(e: Settings, s: SessionData, jwe: Bytes, k: PrivateKey, content: Opened, payload: Payload)
    ensures OpensAs(e, s, jwe, k, content, payload) ==>
              && OpenResponse(e, s, jwe) == Ok((payload, e.lib.thumbprint(e.lib.publicOf(k)).value))
              && Flatten(s, payload.vpToken, e.lib.thumbprint(e.lib.publicOf(k)).value).Ok?
  {
    if OpensAs(e, s, jwe, k, content, payload) {
      FlattenSucceedsIff(s, payload.vpToken, e.lib.thumbprint(e.lib.publicOf(k)).value);
    }
  }

  lemma OpenResponseWitness(e: Settings, s: SessionData, jwe: Bytes)
    returns (k: PrivateKey, content: Opened, payload: Payload)
    requires OpenResponse(e, s, jwe).Ok?
    requires Flatten(s, OpenResponse(e, s, jwe).value.0.vpToken, OpenResponse(e, s, jwe).value.1).Ok?
    ensures OpensAs(e, s, jwe, k, content, payload)
    ensures OpenResponse(e, s, jwe).value == (payload, e.lib.thumbprint(e.lib.publicOf(k)).value)
  {
    k := e.lib.parseKey(s.ephemeralKey).value;
    content := e.lib.open(k, jwe).value;
    payload := e.lib.parsePayload(content.plain).value;
    FlattenSucceedsIff(s, payload.vpToken, e.lib.thumbprint(e.lib.publicOf(k)).value);
  }

  /** Success exactly when every gate holds; then the flattened vp_token is returned. */
  lemma RespondSucceedsIff(e: Settings, s: SessionData, now: int, body: Bytes, tape: Tape)
    ensures Respond(e, s, now, body, tape).2.Ok? <==>
              exists jwe, k, content, payload :: Gates(e, s, now, body, tape, jwe, k, content, payload)
  {
    if Respond(e, s, now, body, tape).2.Ok? {
      var jwe := FormGates(e, s, now, body).value;
      var k, content, payload := OpenResponseWitness(e, s, jwe);
      assert ValuesOf(ParseQuery(body).pairs, RESPONSE) == [jwe];
      assert Gates(e, s, now, body, tape, jwe, k, content, payload);
    }
    if jwe, k, content, payload :| Gates(e, s, now, body, tape, jwe, k, content, payload) {
      RespondOnGates(e, s, now, body, tape, jwe, k, content, payload);
    }
  }

  /** What an accepted response returns and changes. */
  lemma RespondOnGates(e: Settings, s: SessionData, now: int, body: Bytes, tape: Tape,
                       jwe: Bytes, k: PrivateKey, content: Opened, payload: Payload)
    requires Gates(e, s, now, body, tape, jwe, k, content, payload)
    ensures var (s', t, r) := Respond(e, s, now, body, tape);
            && r.Ok?
            && Flatten(s, payload.vpToken, e.lib.thumbprint(e.lib.publicOf(k)).value) == Ok(r.value.presentations)
            && FlattensTo(s, payload.vpToken, e.lib.thumbprint(e.lib.publicOf(k)).value, [], r.value.presentations)
            && (s.flow == SameDevice ==>
                  && r.value.code == Base64url.Encode(tape.bytes[tape.pos..tape.pos + TOKEN_BYTES])
                  && t == tape.(pos := tape.pos + TOKEN_BYTES)
                  && s' == s.(responseCode := r.value.code, responseCodeUsed := false))
            && (s.flow != SameDevice ==> r.value.code == [] && t == tape && s' == s)
  {
    OpenResponseIff(e, s, jwe, k, content, payload);
    FlattenConcatenates(s, payload.vpToken, e.lib.thumbprint(e.lib.publicOf(k)).value);
    assert FormGates(e, s, now, body) == Ok(jwe);
  }

  /** A failed response leaves the session as it was, a minted code and its used flag included. */
  lemma RespondFailureKeeps(e: Settings, s: SessionData, now: int, body: Bytes, tape: Tape)
    requires Respond(e, s, now, body, tape).2.Err?
    ensures Respond(e, s, now, body, tape).0 == s
    ensures OneSentinel(Respond(e, s, now, body, tape).2.error)
  {
    var r := Presented(e, s, now, body);
    if r.Err? && FormGates(e, s, now, body).Ok? {
      OpenOneSentinel(e, s, FormGates(e, s, now, body).value);
      if OpenResponse(e, s, FormGates(e, s, now, body).value).Ok? {
        var (payload, thumbprint) := OpenResponse(e, s, FormGates(e, s, now, body).value).value;
        if payload.state == s.state { var id, fault := FlattenFault(s, payload.vpToken, thumbprint); }
      }
    }
  }

  lemma OpenOneSentinel(e: Settings, s: SessionData, jwe: Bytes)
    ensures OpenResponse(e, s, jwe).Err? ==> OneSentinel(OpenResponse(e, s, jwe).error)
  {
  }

  /** An accepted response mints exactly for same-device sessions, and changes nothing else. */
  lemma RespondLeaves(e: Settings, s: SessionData, now: int, body: Bytes, tape: Tape)
    requires Respond(e, s, now, body, tape).2.Ok?
    ensures var (s', t, r) := Respond(e, s, now, body, tape);
            && s' == (if s.flow == SameDevice then s.(responseCode := r.value.code, responseCodeUsed := false) else s)
            && (r.value.code != [] <==> s.flow == SameDevice)
            && (s.flow == SameDevice ==> NextToken(tape) == (t, Ok(r.value.code)))
            && (s.flow != SameDevice ==> t == tape)
  {
    if s.flow == SameDevice { TokenShape(tape); }
  }

  /** All gates of `ProcessDCAPIResponse`; the origin is checked before size and content. */
  ghost function RespondDCAPI(e: Settings, s: SessionData, now: int, origin: Bytes, data: Bytes)
    : Result<seq<Presentation>>
  {
    if s.flow != DCAPI then Err(Wrapping(FlowMismatch, []))
    else if !s.consumed then Err(Is(SessionNotConsumed))
    else if !(now < s.expiresAt) then Err(Is(SessionExpired))
    else if origin !in s.expectedOrigins then Err(Is(OriginNotExpected))
    else if |data| > e.cfg.maxResponseBody then Err(Is(BodyTooLarge))
    else
      match e.lib.parseDCAPIBody(data)
      case None => Err(Wrapping(MalformedResponse, []))
      case Some(jwe) =>
        if jwe == [] then Err(Wrapping(MalformedResponse, []))
        else
          var (payload, thumbprint) :- OpenResponse(e, s, jwe);
          var prs :- Flatten(s, payload.vpToken, thumbprint);
          Ok(Stamped(prs, origin))
  }

  function Stamped(prs: seq<Presentation>, origin: Bytes): seq<Presentation> {
    seq(|prs|, i requires 0 <= i < |prs| => prs[i].(origin := origin))
  }

  method ProcessDCAPIResponse(e: Engine, s: Session?, origin: Bytes, data: Bytes) returns (r: Result<seq<Presentation>>)
    ensures s == null ==> r == Err(Is(SessionInvalid))
    ensures s != null ==> r == RespondDCAPI(e.setup, s.Snapshot(), e.clock.now, origin, data)
  {
    if s == null { return Err(Is(SessionInvalid)); }
    if s.flow != DCAPI { return Err(Wrapping(FlowMismatch, [])); }
    if !s.consumed { return Err(Is(SessionNotConsumed)); }
    if !(e.clock.now < s.expiresAt) { return Err(Is(SessionExpired)); }
    if origin !in s.expectedOrigins { return Err(Is(OriginNotExpected)); }
    if |data| > e.setup.cfg.maxResponseBody { return Err(Is(BodyTooLarge)); }
    var body := e.setup.lib.parseDCAPIBody(data);
    if body.None? || body.value == [] { return Err(Wrapping(MalformedResponse, [])); }
    var content := OpenResponse(e.setup, s.Snapshot(), body.value);
    if content.Err? { return Err(content.error); }
    var found := PresentationsFromVPToken(s, content.value.0.vpToken, content.value.1);
    if found.Err? { return found; }
    var prs := found.value;
    for i := 0 to |prs|
      invariant |prs| == |found.value|
      invariant forall k :: 0 <= k < i ==> prs[k] == found.value[k].(origin := origin)
      invariant forall k :: i <= k < |prs| ==> prs[k] == found.value[k]
    {
      prs := prs[i := prs[i].(origin := origin)];
    }
    assert prs == Stamped(found.value, origin);
    return Ok(prs);
  }

  /** Every gate of the DCAPI path. */
  ghost predicate GatesDCAPI(e: Settings, s: SessionData, now: int, origin: Bytes, data: Bytes,
                             jwe: Bytes, k: PrivateKey, content: Opened, payload: Payload)
  {
    && s.flow == DCAPI && s.consumed && now < s.expiresAt
    && origin in s.expectedOrigins
    && |data| <= e.cfg.maxResponseBody
    && e.lib.parseDCAPIBody(data) == Some(jwe) && jwe != []
    && OpensAs(e, s, jwe, k, content, payload)
  }

  /** Success exactly when every gate holds; then every presentation is stamped with the origin. */
  lemma RespondDCAPISucceedsIff(e: Settings, s: SessionData, now: int, origin: Bytes, data: Bytes)
    ensures RespondDCAPI(e, s, now, origin, data).Ok? <==>
              exists jwe, k, content, payload :: GatesDCAPI(e, s, now, origin, data, jwe, k, content, payload)
  {
    if RespondDCAPI(e, s, now, origin, data).Ok? {
      var jwe := e.lib.parseDCAPIBody(data).value;
      var k, content, payload := OpenResponseWitness(e, s, jwe);
      assert GatesDCAPI(e, s, now, origin, data, jwe, k, content, payload);
    }
    if jwe, k, content, payload :| GatesDCAPI(e, s, now, origin, data, jwe, k, content, payload) {
      OpenResponseIff(e, s, jwe, k, content, payload);
    }
  }

  /** What an accepted DCAPI response returns: the whole vp_token, in order, under the checked origin. */
  lemma RespondDCAPIOnGates(e: Settings, s: SessionData, now: int, origin: Bytes, data: Bytes,
                            jwe: Bytes, k: PrivateKey, content: Opened, payload: Payload)
    requires GatesDCAPI(e, s, now, origin, data, jwe, k, content, payload)
    ensures var r := RespondDCAPI(e, s, now, origin, data);
            r.Ok? && FlattensTo(s, payload.vpToken, e.lib.thumbprint(e.lib.publicOf(k)).value, origin, r.value)
  {
    OpenResponseIff(e, s, jwe, k, content, payload);
    var thumbprint := e.lib.thumbprint(e.lib.publicOf(k)).value;
    FlattenConcatenates(s, payload.vpToken, thumbprint);
    var prs := Flatten(s, payload.vpToken, thumbprint).value;
    StampedFlattens(s, payload.vpToken, thumbprint, origin, prs, Stamped(prs, origin));
  }

  lemma RespondDCAPIOneSentinel(e: Settings, s: SessionData, now: int, origin: Bytes, data: Bytes)
    requires RespondDCAPI(e, s, now, origin, data).Err?
    ensures OneSentinel(RespondDCAPI(e, s, now, origin, data).error)
  {
    var body := e.lib.parseDCAPIBody(data);
    if body.Some? {
      OpenOneSentinel(e, s, body.value);
      if OpenResponse(e, s, body.value).Ok? {
        var (payload, thumbprint) := OpenResponse(e, s, body.value).value;
        if Flatten(s, payload.vpToken, thumbprint).Err? {
          var id, fault := FlattenFault(s, payload.vpToken, thumbprint);
        }
      }
    }
  }

  /** The thumbprint of the key the session advertises. */
  function ThumbprintOf(lib: Library, s: SessionData): Bytes {
    match lib.parseKey(s.ephemeralKey)
    case None => []
    case Some(k) =>
      match lib.thumbprint(lib.publicOf(k))
      case None => []
      case Some(t) => t
  }

  /** A presentation carries the session's nonce, client id and response URI, the given origin,
      and, for an mdoc, the thumbprint of the session's own key. */
  ghost predicate BoundTo(lib: Library, s: SessionData, origin: Bytes, p: Presentation) {
    && p.nonce == s.nonce && p.clientID == s.clientID && p.responseURI == s.responseURI && p.origin == origin
    && p.jwkThumbprint == (if p.format == FORMAT_MDOC then ThumbprintOf(lib, s) else [])
  }

  lemma RespondBound(e: Settings, s: SessionData, now: int, body: Bytes, tape: Tape)
    requires Respond(e, s, now, body, tape).2.Ok?
    ensures forall p :: p in Respond(e, s, now, body, tape).2.value.presentations ==> BoundTo(e.lib, s, [], p)
    ensures s.consumed && now < s.expiresAt && s.flow != DCAPI
  {
    var jwe := FormGates(e, s, now, body).value;
    var (payload, thumbprint) := OpenResponse(e, s, jwe).value;
    FlattenBound(s, payload.vpToken, thumbprint);
  }

  lemma RespondDCAPIBound(e: Settings, s: SessionData, now: int, origin: Bytes, data: Bytes)
    requires RespondDCAPI(e, s, now, origin, data).Ok?
    ensures forall p :: p in RespondDCAPI(e, s, now, origin, data).value ==> BoundTo(e.lib, s, origin, p)
    ensures s.consumed && now < s.expiresAt && s.flow == DCAPI && origin in s.expectedOrigins
  {
    var jwe := e.lib.parseDCAPIBody(data).value;
    var (payload, thumbprint) := OpenResponse(e, s, jwe).value;
    FlattenBound(s, payload.vpToken, thumbprint);
    var prs := Flatten(s, payload.vpToken, thumbprint).value;
    forall p | p in Stamped(prs, origin) ensures BoundTo(e.lib, s, origin, p) {
      var i :| 0 <= i < |prs| && p == prs[i].(origin := origin);
      assert prs[i] in prs;
    }
  }

  /** The wallet's side: sealing to a public key, rendering a payload, and the browser's wrapping. */
  datatype Wallet = Wallet(
    seal: (PublicKey, Bytes, map<Bytes, HeaderValue>) -> Bytes,
    render: Payload -> Bytes,
    wrap: Bytes -> Bytes)

  /** Opening with the matching private key undoes sealing; parsing undoes rendering and wrapping. */
  ghost predicate LawfulWallet(lib: Library, w: Wallet) {
    && (forall k: PrivateKey, m: Bytes, h: map<Bytes, HeaderValue> ::
          w.seal(lib.publicOf(k), m, h) != [] && lib.open(k, w.seal(lib.publicOf(k), m, h)) == Some(Opened(m, h)))
    && (forall p: Payload :: lib.parsePayload(w.render(p)) == Some(p))
    && (forall jwe: Bytes :: lib.parseDCAPIBody(w.wrap(jwe)) == Some(jwe))
  }

  function WalletHeader(nonce: Bytes): map<Bytes, HeaderValue> {
    map["apv" := Text(Base64url.Encode(nonce))]
  }

  /** The JWE an honest wallet makes, from the advertised key and nonce alone, and the state of
      a request object. A DCAPI request has none. */
  function WalletJWE(w: Wallet, q: Request, vpToken: map<Bytes, VPValue>): Bytes {
    w.seal(q.key, w.render(Payload(vpToken, if q.RequestObject? then q.state else [])), WalletHeader(q.nonce))
  }

  function FormBody(jwe: Bytes): Bytes {
    WritePairs([("response", jwe)])
  }

  lemma SingleField(jwe: Bytes)
    requires jwe != []
    ensures FormCarries(FormBody(jwe), jwe)
  {
    var pairs: seq<Pair> := [("response", jwe)];
    ParseWritten(pairs);
    assert pairs[1..] == [];
    assert ValuesOf(pairs, "response") == [jwe] && ValuesOf(pairs, "error") == [];
  }

  /** A vp_token that answers a query: at least one key, all of them good. */
  predicate GoodToken(query: Query, vpToken: map<Bytes, VPValue>) {
    vpToken != map[] && forall id :: id in vpToken ==> GoodKey(query, vpToken, id)
  }

  lemma HonestOpens(e: Settings, w: Wallet, s: SessionData, q: Request, vpToken: map<Bytes, VPValue>)
    requires LawfulKeys(e.lib) && LawfulWallet(e.lib, w)
    requires RequestObject.Describes(e, s, q) && GoodToken(q.query, vpToken)
    ensures var k := e.lib.parseKey(s.ephemeralKey).value;
            var payload := Payload(vpToken, if q.RequestObject? then q.state else []);
            var jwe := WalletJWE(w, q, vpToken);
            jwe != [] && OpensAs(e, s, jwe, k, Opened(w.render(payload), WalletHeader(s.nonce)), payload)
  {
    Base64url.DecodeEncode(s.nonce);
  }

  /** An honest wallet's response to the served request of a consumed, unexpired request_uri
      session is accepted, and the result is exactly its vp_token, flattened. */
  lemma HonestWalletSucceeds(e: Settings, w: Wallet, s: SessionData, q: Request, served: int,
                             vpToken: map<Bytes, VPValue>, now: int, tape: Tape)
    requires LawfulKeys(e.lib) && LawfulWallet(e.lib, w)
    requires RequestObject.RequestClaims(e, s, served) == Ok(q)
    requires s.flow != DCAPI && s.consumed && now < s.expiresAt
    requires GoodToken(q.query, vpToken)
    requires |FormBody(WalletJWE(w, q, vpToken))| <= e.cfg.maxResponseBody
    requires s.flow == SameDevice ==> tape.pos + TOKEN_BYTES <= |tape.bytes|
    ensures var r := Respond(e, s, now, FormBody(WalletJWE(w, q, vpToken)), tape).2;
            r.Ok? && FlattensTo(s, vpToken, ThumbprintOf(e.lib, s), [], r.value.presentations)
  {
    RequestObject.ClaimsFromCore(e, s, s, served);
    HonestOpens(e, w, s, q, vpToken);
    var payload := Payload(vpToken, s.state);
    HonestGates(e, s, now, tape, WalletJWE(w, q, vpToken), e.lib.parseKey(s.ephemeralKey).value,
                Opened(w.render(payload), WalletHeader(s.nonce)), payload);
  }

  lemma HonestGates(e: Settings, s: SessionData, now: int, tape: Tape, jwe: Bytes, k: PrivateKey, content: Opened,
                    payload: Payload)
    requires OpensAs(e, s, jwe, k, content, payload) && jwe != []
    requires s.flow != DCAPI && s.consumed && now < s.expiresAt && payload.state == s.state
    requires |FormBody(jwe)| <= e.cfg.maxResponseBody
    requires s.flow == SameDevice ==> tape.pos + TOKEN_BYTES <= |tape.bytes|
    ensures var r := Respond(e, s, now, FormBody(jwe), tape).2;
            r.Ok? && FlattensTo(s, payload.vpToken, ThumbprintOf(e.lib, s), [], r.value.presentations)
  {
    SingleField(jwe);
    RespondOnGates(e, s, now, FormBody(jwe), tape, jwe, k, content, payload);
  }

  /** The same through the browser: an honest wallet's response to a signed or unsigned DCAPI request
      of a consumed, unexpired session, passed on at one of its origins, is accepted, and the
      result is exactly its vp_token, flattened, under that origin. */
  lemma HonestBrowserSucceeds(e: Settings, w: Wallet, s: SessionData, q: Request, signed: bool, served: int,
                              vpToken: map<Bytes, VPValue>, origin: Bytes, now: int)
    requires LawfulKeys(e.lib) && LawfulWallet(e.lib, w)
    requires RequestObject.ClaimsForDCAPI(e, s, signed, served) == Ok(q)
    requires s.flow == DCAPI && s.consumed && now < s.expiresAt && origin in s.expectedOrigins
    requires GoodToken(q.query, vpToken)
    requires |w.wrap(WalletJWE(w, q, vpToken))| <= e.cfg.maxResponseBody
    ensures var r := RespondDCAPI(e, s, now, origin, w.wrap(WalletJWE(w, q, vpToken)));
            r.Ok? && FlattensTo(s, vpToken, ThumbprintOf(e.lib, s), origin, r.value)
  {
    RequestObject.DCAPIClaimsFromCore(e, s, s, signed, served);
    HonestOpens(e, w, s, q, vpToken);
    var payload := Payload(vpToken, []);
    RespondDCAPIOnGates(e, s, now, origin, w.wrap(WalletJWE(w, q, vpToken)), WalletJWE(w, q, vpToken),
                        e.lib.parseKey(s.ephemeralKey).value,
                        Opened(w.render(payload), WalletHeader(s.nonce)), payload);
  }
}
