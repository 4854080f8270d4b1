/** The request sides: the single-use Request Object of request_uri flows (RFC 9101) and the
    DCAPI request member (Annex A of OpenID4VP 1.0). */
module RequestObject {
  import opened GoStrings
  import opened Errors
  import opened Session
  import opened Engine
  import Base64url

  function TransactionDataStrings(td: seq<Bytes>): (r: seq<Bytes>)
    ensures |r| == |td| && forall i :: 0 <= i < |td| ==> r[i] == Base64url.Encode(td[i])
    ensures forall i :: 0 <= i < |td| ==> Base64url.Decode(r[i]) == Some(td[i])
  {
    var r := seq(|td|, i requires 0 <= i < |td| => Base64url.Encode(td[i]));
    assert forall i :: 0 <= i < |td| ==> Base64url.Decode(r[i]) == Some(td[i]) by {
      forall i | 0 <= i < |td| ensures Base64url.Decode(r[i]) == Some(td[i]) { Base64url.DecodeEncode(td[i]); }
    }
    r
  }

  /** The registration guard both request builders share. */
  function RegistrationFault(lib: Library, s: SessionData): Option<Error> {
    if s.registration.IsZero() then Some(Is(NoRegistration))
    else if !lib.claimable(s.registration) then Some(WrappingForeign(NoRegistration))
    else None
  }

  function VerifierInfo(s: SessionData): Option<Bytes> {
    if |s.wrprc| > 0 then Some(s.wrprc) else None
  }

  function RequestedTransactionData(e: Settings, s: SessionData): Option<seq<Bytes>> {
    if |s.transactionData| > 0 && e.cfg.enableTransactionData then Some(TransactionDataStrings(s.transactionData))
    else None
  }

  /** `requestClaims`. */
  function RequestClaims(e: Settings, s: SessionData, now: int): Result<Request> {
    match RegistrationFault(e.lib, s)
    case Some(fault) => Err(fault)
    case None =>
      var k :- EphemeralKey(e.lib, s);
      Ok(RequestObject(e.clientID, s.responseURI, s.nonce, s.state, s.query, e.lib.publicOf(k), s.id,
                       now, s.expiresAt, s.registration, VerifierInfo(s), RequestedTransactionData(e, s)))
  }

  /** `dcapiClaims`. */
  function ClaimsForDCAPI(e: Settings, s: SessionData, signed: bool, now: int): Result<Request> {
    match RegistrationFault(e.lib, s)
    case Some(fault) => Err(fault)
    case None =>
      var k :- EphemeralKey(e.lib, s);
      Ok(DCAPIClaims(s.nonce, s.query, e.lib.publicOf(k), s.id,
                     s.registration, VerifierInfo(s), RequestedTransactionData(e, s),
                     if signed then Some(SignedPart(e.clientID, s.expectedOrigins, now, s.expiresAt)) else None))
  }

  /** A request with its signed form. */
  datatype Signed = Signed(request: Request, token: Bytes)

  function Sign(e: Settings, request: Request): Result<Signed> {
    match e.lib.sign(request)
    case None => Err(Foreign)
    case Some(token) => Ok(Signed(request, token))
  }

  /** `DCAPIRequest`: the session is only read. */
  function SignedDCAPIRequest(e: Settings, s: SessionData, now: int): Result<Signed> {
    if s.flow != DCAPI then Err(Wrapping(FlowMismatch, []))
    else if !(now < s.expiresAt) then Err(Is(SessionExpired))
    else
      var claims :- ClaimsForDCAPI(e, s, true, now);
      Sign(e, claims)
  }

  /** `DCAPIUnsignedRequest`: the session is only read, and its expiry is not looked at. */
  function UnsignedDCAPIRequest(e: Settings, s: SessionData): Result<Request> {
    if s.flow != DCAPI then Err(Wrapping(FlowMismatch, [])) else ClaimsForDCAPI(e, s, false, 0)
  }

  /** What `RequestObjectJWT` returns and what it leaves in the session. */
  function Serve(e: Settings, s: SessionData, now: int): (SessionData, Result<Signed>) {
    if s.flow == DCAPI then (s, Err(Wrapping(FlowMismatch, [])))
    else if !(now < s.expiresAt) then (s, Err(Is(SessionExpired)))
    else if s.requestObjectServed then (s, Err(Is(RequestURIConsumed)))
    else
      match RequestClaims(e, s, now)
      case Err(fault) => (s, Err(fault))
      case Ok(claims) =>
        match Sign(e, claims)
        case Err(fault) => (s, Err(fault))
        case Ok(signed) => (s.(requestObjectServed := true), Ok(signed))
  }

  method RequestObjectJWT(e: Engine, s: Session?) returns (r: Result<Signed>)
    modifies s
    ensures s == null ==> r == Err(Is(SessionInvalid))
    ensures s != null ==> (s.Snapshot(), r) == Serve(e.setup, old(s.Snapshot()), e.clock.now)
  {
    if s == null { return Err(Is(SessionInvalid)); }
    if s.flow == DCAPI { return Err(Wrapping(FlowMismatch, [])); }
    if !(e.clock.now < s.expiresAt) { return Err(Is(SessionExpired)); }
    if s.requestObjectServed { return Err(Is(RequestURIConsumed)); }
    var claims := RequestClaims(e.setup, s.Snapshot(), e.clock.now);
    if claims.Err? { return Err(claims.error); }
    var signed := Sign(e.setup, claims.value);
    if signed.Err? { return signed; }
    s.requestObjectServed := true;
    return signed;
  }

  /** The session data every request needs. */
  predicate Describable(e: Settings, s: SessionData) {
    && s.registration != Registration([], [], [], []) && e.lib.claimable(s.registration)
    && e.lib.parseKey(s.ephemeralKey).Some?
  }

  /** Every gate of `RequestObjectJWT` but the single-use mark. */
  predicate Servable(e: Settings, s: SessionData, now: int) {
    && s.flow != DCAPI && now < s.expiresAt && Describable(e, s)
    && e.lib.sign(RequestClaims(e, s, now).value).Some?
  }

  /** Serving succeeds exactly on an unserved, unexpired request_uri session with registration
      data, a usable key and a working signer; a failure leaves the session unchanged. */
  lemma ServeSucceedsIff(e: Settings, s: SessionData, now: int)
    ensures Serve(e, s, now).1.Ok? <==> Servable(e, s, now) && !s.requestObjectServed
    ensures Serve(e, s, now).1 == Err(Is(RequestURIConsumed)) <==>
              s.flow != DCAPI && now < s.expiresAt && s.requestObjectServed
    ensures Serve(e, s, now).1.Err? ==> Serve(e, s, now).0 == s
    ensures Serve(e, s, now).1.Ok? ==>
              var signed := Serve(e, s, now).1.value;
              && Serve(e, s, now).0 == s.(requestObjectServed := true)
              && RequestClaims(e, s, now) == Ok(signed.request) && e.lib.sign(signed.request) == Some(signed.token)
  {
  }

  /** The complaint of a request builder about the session data: which sentinel, if any. */
  ghost predicate DataComplaint(e: Settings, s: SessionData, err: Error) {
    if s.registration == Registration([], [], [], []) || !e.lib.claimable(s.registration) then
      Mentions(err, NoRegistration)
    else if e.lib.parseKey(s.ephemeralKey).None? then Mentions(err, SessionInvalid)
    else forall k :: !Mentions(err, k)
  }

  /** Which error a refused `RequestObjectJWT` gives: the first gate that fails, in order. */
  lemma ServeComplains(e: Settings, s: SessionData, now: int)
    requires Serve(e, s, now).1.Err?
    ensures var err := Serve(e, s, now).1.error;
            && OneSentinel(err)
            && if s.flow == DCAPI then Mentions(err, FlowMismatch)
               else if now >= s.expiresAt then Mentions(err, SessionExpired)
               else if s.requestObjectServed then Mentions(err, RequestURIConsumed)
               else DataComplaint(e, s, err)
  {
  }

  /** The signed DCAPI request: exactly when it is built, that its token signs it, and which error it gives. */
  lemma SignedDCAPIIff(e: Settings, s: SessionData, now: int)
    ensures var r := SignedDCAPIRequest(e, s, now);
            && (r.Ok? <==> s.flow == DCAPI && now < s.expiresAt && Describable(e, s)
                           && e.lib.sign(ClaimsForDCAPI(e, s, true, now).value).Some?)
            && (r.Ok? ==> ClaimsForDCAPI(e, s, true, now) == Ok(r.value.request)
                          && e.lib.sign(r.value.request) == Some(r.value.token))
            && (r.Err? ==>
                  && OneSentinel(r.error)
                  && if s.flow != DCAPI then Mentions(r.error, FlowMismatch)
                     else if now >= s.expiresAt then Mentions(r.error, SessionExpired)
                     else DataComplaint(e, s, r.error))
  {
  }

  /** The unsigned DCAPI request needs neither a signer nor an unexpired session. */
  lemma UnsignedDCAPIIff(e: Settings, s: SessionData, at: int)
    ensures var r := UnsignedDCAPIRequest(e, s);
            && (r.Ok? <==> s.flow == DCAPI && Describable(e, s))
            && (r.Ok? ==> ClaimsForDCAPI(e, s, false, at) == r)
            && (r.Err? ==>
                  && OneSentinel(r.error)
                  && if s.flow != DCAPI then Mentions(r.error, FlowMismatch) else DataComplaint(e, s, r.error))
  {
  }

  /** What every request says of its session: nonce, query, registration data, the public half of the
      session's key under the session's id, the attestation when there is one, and with the flag on
      each transaction_data entry, encoded. */
  ghost predicate Describes(e: Settings, s: SessionData, q: Request) {
    && q.nonce == s.nonce && q.query == s.query && q.registration == s.registration && q.kid == s.id
    && e.lib.parseKey(s.ephemeralKey).Some? && q.key == e.lib.publicOf(e.lib.parseKey(s.ephemeralKey).value)
    && (q.wrprc.Some? <==> s.wrprc != []) && (q.wrprc.Some? ==> q.wrprc.value == s.wrprc)
    && (q.transactionData.Some? <==> s.transactionData != [] && e.cfg.enableTransactionData)
    && (q.transactionData.Some? ==>
          && |q.transactionData.value| == |s.transactionData|
          && forall i :: 0 <= i < |s.transactionData| ==>
               q.transactionData.value[i] == Base64url.Encode(s.transactionData[i]))
  }

  /** What a request object advertises is fixed by the fixed part of the session, the engine's client id
      and the time. */
  lemma ClaimsFromCore(e: Settings, s: SessionData, t: SessionData, now: int)
    requires s.Core() == t.Core()
    ensures RequestClaims(e, s, now) == RequestClaims(e, t, now)
    ensures RequestClaims(e, s, now).Ok? ==>
              var q := RequestClaims(e, s, now).value;
              && q.RequestObject? && Describes(e, s, q)
              && q.clientID == e.clientID && q.responseURI == s.responseURI && q.state == s.state
              && q.iat == now && q.exp == s.expiresAt
  {
    assert s.Core().responseURI == s.responseURI && s.Core().nonce == s.nonce && s.Core().state == s.state;
    assert t.Core().ephemeralKey == t.ephemeralKey && t.Core().registration == t.registration;
  }

  /** The same for DCAPI requests; only a signed one names the client, the origins and times. */
  lemma DCAPIClaimsFromCore(e: Settings, s: SessionData, t: SessionData, signed: bool, now: int)
    requires s.Core() == t.Core()
    ensures ClaimsForDCAPI(e, s, signed, now) == ClaimsForDCAPI(e, t, signed, now)
    ensures ClaimsForDCAPI(e, s, signed, now).Ok? ==>
              var q := ClaimsForDCAPI(e, s, signed, now).value;
              && q.DCAPIClaims? && Describes(e, s, q)
              && (q.signed.Some? <==> signed)
              && (signed ==>
                    && q.signed.value.clientID == e.clientID && q.signed.value.expectedOrigins == s.expectedOrigins
                    && q.signed.value.iat == now && q.signed.value.exp == s.expiresAt)
  {
    assert s.Core().nonce == s.nonce && s.Core().query == s.query;
    assert t.Core().ephemeralKey == t.ephemeralKey && t.Core().registration == t.registration;
  }
}
