/** Creating a session: the request specification, its validation, the session's secrets
    and the wallet invocation. */
module NewSession {
  import opened GoStrings
  import opened Errors
  import opened Session
  import opened Engine
  import opened FormEncoding
  import RequestObject

  datatype RequestSpec = RequestSpec(
    query: Query, flow: Flow, responseURI: Bytes, returnURI: Bytes, registration: Registration,
    wrprc: Bytes, transactionData: seq<Bytes>, expectedOrigins: seq<Bytes>)

  /** The ways to put a request in front of a wallet. */
  datatype Invocation =
    | ByReference(schemeURI: Bytes, universalLink: Bytes, qrPayload: Bytes)
    | ByBrowser(member: Bytes)

  predicate ValidHTTPSURL(lib: Library, raw: Bytes) {
    raw != [] &&
    match lib.parseURL(raw)
    case None => false
    case Some(u) => u.scheme == HTTPS && u.host != []
  }

  predicate ValidResponseURI(e: Settings, raw: Bytes) {
    ValidHTTPSURL(e.lib, raw) && e.lib.parseURL(raw).value.hostname == e.cfg.clientDNSName
  }

  predicate ValidOrigin(lib: Library, raw: Bytes) {
    match lib.parseURL(raw)
    case None => false
    case Some(u) =>
      u.scheme == HTTPS && u.host != [] && u.path == [] && u.rawQuery == [] && u.fragment == [] && !u.hasUser
  }

  /** The flow-specific half of `validateSpec`. */
  function FlowFault(e: Settings, spec: RequestSpec): Option<Error> {
    match spec.flow
    case SameDevice =>
      if !ValidResponseURI(e, spec.responseURI) then Some(WrappingForeign(BadSpec))
      else if |spec.expectedOrigins| > 0 then Some(Wrapping(BadSpec, []))
      else if !ValidHTTPSURL(e.lib, spec.returnURI) then Some(WrappingForeign(BadSpec))
      else None
    case CrossDevice =>
      if !ValidResponseURI(e, spec.responseURI) then Some(WrappingForeign(BadSpec))
      else if |spec.expectedOrigins| > 0 then Some(Wrapping(BadSpec, []))
      else if spec.returnURI != [] then Some(Wrapping(BadSpec, []))
      else None
    case DCAPI =>
      if spec.responseURI != [] || spec.returnURI != [] then Some(Wrapping(BadSpec, []))
      else if |spec.expectedOrigins| == 0 then Some(Wrapping(BadSpec, []))
      else if exists i :: 0 <= i < |spec.expectedOrigins| && !ValidOrigin(e.lib, spec.expectedOrigins[i]) then
        Some(WrappingForeign(BadSpec))
      else None
    case OtherFlow(_) => Some(Wrapping(BadSpec, []))
  }

  /** `validateSpec`; `None` is success. */
  function SpecFault(e: Settings, spec: RequestSpec): Option<Error> {
    if spec.registration.IsZero() then Some(Is(NoRegistration))
    else if |spec.query.credentials| == 0 then Some(Wrapping(BadSpec, []))
    else if !e.lib.validQuery(spec.query) then Some(WrappingForeign(BadSpec))
    else if |spec.transactionData| > 0 && !e.cfg.enableTransactionData then Some(Is(TransactionDataDisabled))
    else if exists i :: 0 <= i < |spec.transactionData| && !e.lib.isJSONObject(spec.transactionData[i]) then
      Some(Wrapping(TransactionDataInvalid, []))
    else FlowFault(e, spec)
  }

  function RequestURI(e: Settings, id: Bytes): Bytes {
    match e.cfg.requestURIFunc
    case None => e.cfg.requestURIBase + ['/'] + id
    case Some(build) => build(id)
  }

  const CLIENT_ID: Bytes := "client_id"
  const REQUEST_URI: Bytes := "request_uri"
  const REQUEST_URI_METHOD: Bytes := "request_uri_method"
  const GET: Bytes := "get"
  const SCHEME: Bytes := "openid4vp://"

  function InvocationForm(e: Settings, id: Bytes): map<Bytes, Bytes> {
    map[CLIENT_ID := e.clientID, REQUEST_URI := RequestURI(e, id), REQUEST_URI_METHOD := GET]
  }

  lemma ThreeEntries(a: Bytes, b: Bytes, c: Bytes, x: Bytes, y: Bytes, z: Bytes)
    ensures map[][a := x][b := y][c := z] == map[a := x, b := y, c := z]
  {
  }

  ghost function InvocationOf(e: Settings, s: SessionData, now: int): Result<Invocation> {
    if s.flow == DCAPI then
      var signed :- RequestObject.SignedDCAPIRequest(e, s, now);
      Ok(ByBrowser(signed.token))
    else
      var enc := EncodeValues(InvocationForm(e, s.id));
      Ok(ByReference(SCHEME + ['?'] + enc, e.cfg.universalLinkBase + ['?'] + enc, SCHEME + ['?'] + enc))
  }

  method WriteInvocation(e: Settings, id: Bytes) returns (enc: Bytes)
    ensures enc == EncodeValues(InvocationForm(e, id))
  {
    var q: map<Bytes, Bytes> := map[];
    q := q[CLIENT_ID := e.clientID];
    var requestURI := e.cfg.requestURIBase + ['/'] + id;
    if e.cfg.requestURIFunc.Some? { requestURI := e.cfg.requestURIFunc.value(id); }
    q := q[REQUEST_URI := requestURI];
    q := q[REQUEST_URI_METHOD := GET];
    ThreeEntries(CLIENT_ID, REQUEST_URI, REQUEST_URI_METHOD, e.clientID, requestURI, GET);
    enc := Encode(q);
  }

  /** `invocation`. */
  method Invoke(e: Engine, s: Session) returns (r: Result<Invocation>)
    ensures r == InvocationOf(e.setup, s.Snapshot(), e.clock.now)
  {
    if s.flow == DCAPI {
      var signed := RequestObject.SignedDCAPIRequest(e.setup, s.Snapshot(), e.clock.now);
      if signed.Err? { return Err(signed.error); }
      return Ok(ByBrowser(signed.value.token));
    }
    var enc := WriteInvocation(e.setup, s.id);
    var schemeURI := SCHEME + ['?'] + enc;
    return Ok(ByReference(schemeURI, e.setup.cfg.universalLinkBase + ['?'] + enc, schemeURI));
  }

  datatype Created = Created(session: SessionData, invocation: Invocation)

  function SessionFrom(e: Settings, spec: RequestSpec, id: Bytes, nonce: Bytes, state: Bytes, der: Bytes, now: int)
    : SessionData
  {
    SessionData(id, spec.flow, e.clientID, nonce, state, spec.responseURI, spec.returnURI,
                spec.query, spec.registration,
                spec.wrprc, spec.transactionData, spec.expectedOrigins, der, now, now + e.cfg.sessionTTL,
                false, [], false, [], false)
  }

  /** What `NewSession` returns and what it leaves of the tape. `key` is the generated key. */
  ghost function Create(e: Settings, spec: RequestSpec, key: Option<PrivateKey>, now: int, tape: Tape)
    : (Tape, Result<Created>)
  {
    if SpecFault(e, spec).Some? then (tape, Err(SpecFault(e, spec).value)) else
    var (t1, id) := NextToken(tape);
    if id.Err? then (t1, Err(id.error)) else
    var (t2, nonce) := NextToken(t1);
    if nonce.Err? then (t2, Err(nonce.error)) else
    var (t3, state) := NextToken(t2);
    if state.Err? then (t3, Err(state.error)) else
    if key.None? then (t3, Err(Foreign)) else
    var der := e.lib.marshalKey(key.value);
    if der.None? then (t3, Err(WrappingForeign(BadConfig))) else
    var s := SessionFrom(e, spec, id.value, nonce.value, state.value, der.value, now);
    match InvocationOf(e, s, now)
    case Err(fault) => (t3, Err(fault))
    case Ok(inv) => (t3, Ok(Created(s, inv)))
  }

  method NewSession(e: Engine, spec: RequestSpec, key: Option<PrivateKey>) returns (r: Result<(Session, Invocation)>)
    modifies e.rand
    ensures var (tape, created) := Create(e.setup, spec, key, e.clock.now, old(e.rand.tape));
            && e.rand.tape == tape
            && (r.Ok? <==> created.Ok?)
            && (r.Ok? ==> fresh(r.value.0) && Created(r.value.0.Snapshot(), r.value.1) == created.value)
            && (r.Err? ==> r.error == created.error)
  {
    var fault := SpecFault(e.setup, spec);
    if fault.Some? { return Err(fault.value); }
    var id := e.rand.Token();
    if id.Err? { return Err(id.error); }
    var nonce := e.rand.Token();
    if nonce.Err? { return Err(nonce.error); }
    var state := e.rand.Token();
    if state.Err? { return Err(state.error); }
    if key.None? { return Err(Foreign); }
    var der := e.setup.lib.marshalKey(key.value);
    if der.None? { return Err(WrappingForeign(BadConfig)); }
    var s := new Session(SessionFrom(e.setup, spec, id.value, nonce.value, state.value, der.value, e.clock.now));
    var inv := Invoke(e, s);
    if inv.Err? { return Err(inv.error); }
    return Ok((s, inv.value));
  }

  /** What every session that `NewSession` made keeps, whatever is done with it. */
  ghost predicate Shape(e: Settings, s: SessionData) {
    && s.id != [] && s.nonce != [] && s.state != []
    && s.clientID == e.clientID
    && s.expiresAt - s.createdAt == e.cfg.sessionTTL
    && e.lib.parseKey(s.ephemeralKey).Some?
    && !s.registration.IsZero() && |s.query.credentials| > 0 && e.lib.validQuery(s.query)
    && ShapeOfFlow(e, s)
    && (s.responseCode != [] ==> s.flow == SameDevice && s.consumed)
    && (s.responseCodeUsed ==> s.responseCode != [])
  }

  ghost predicate ShapeOfFlow(e: Settings, s: SessionData) {
    match s.flow
    case SameDevice =>
      ValidResponseURI(e, s.responseURI) && ValidHTTPSURL(e.lib, s.returnURI) && s.expectedOrigins == []
    case CrossDevice => ValidResponseURI(e, s.responseURI) && s.returnURI == [] && s.expectedOrigins == []
    case DCAPI =>
      && s.responseURI == [] && s.returnURI == [] && |s.expectedOrigins| > 0
      && forall i :: 0 <= i < |s.expectedOrigins| ==> ValidOrigin(e.lib, s.expectedOrigins[i])
    case OtherFlow(_) => false
  }

  /** A created session has the shape, is fresh in every respect, and carries the next three tokens. */
  lemma CreateShape(e: Settings, spec: RequestSpec, key: Option<PrivateKey>, now: int, tape: Tape)
    requires LawfulKeys(e.lib) && e.cfg.sessionTTL > 0
    requires Create(e, spec, key, now, tape).1.Ok?
    ensures var (t, c) := Create(e, spec, key, now, tape);
            var s := c.value.session;
            && Shape(e, s) && now < s.expiresAt
            && !s.requestObjectServed && !s.consumed && s.responseCode == [] && !s.responseCodeUsed
            && tape.pos + 3 * TOKEN_BYTES <= |tape.bytes| && t == tape.(pos := tape.pos + 3 * TOKEN_BYTES)
            && s.id == NextToken(tape).1.value
            && s.nonce == NextToken(tape.(pos := tape.pos + TOKEN_BYTES)).1.value
            && s.state == NextToken(tape.(pos := tape.pos + 2 * TOKEN_BYTES)).1.value
  {
    TokenShape(tape);
    TokenShape(tape.(pos := tape.pos + TOKEN_BYTES));
    TokenShape(tape.(pos := tape.pos + 2 * TOKEN_BYTES));
  }

  /** Creation draws up to three tokens, in order, and all three when it succeeds. */
  lemma CreateDraws(e: Settings, spec: RequestSpec, key: Option<PrivateKey>, now: int, tape: Tape)
    ensures var (t, c) := Create(e, spec, key, now, tape);
            var (t1, id) := NextToken(tape);
            var (t2, nonce) := NextToken(t1);
            var (t3, state) := NextToken(t2);
            && (t == tape || t == t1 || t == t2 || t == t3)
            && (c.Ok? ==> t == t3 && Ok(c.value.session.id) == id && Ok(c.value.session.nonce) == nonce
                          && Ok(c.value.session.state) == state)
  {
  }

  /** Every error that creating a session can return mentions at most one sentinel. */
  lemma CreateOneSentinel(e: Settings, spec: RequestSpec, key: Option<PrivateKey>, now: int, tape: Tape)
    requires Create(e, spec, key, now, tape).1.Err?
    ensures OneSentinel(Create(e, spec, key, now, tape).1.error)
  {
  }

  /** The three parameters of an invocation by reference, in byte order of their names. */
  ghost function InvocationPairs(e: Settings, id: Bytes): seq<Pair> {
    [("client_id", e.clientID),
     ("request_uri", if e.cfg.requestURIFunc.Some? then e.cfg.requestURIFunc.value(id)
                     else e.cfg.requestURIBase + "/" + id),
     ("request_uri_method", "get")]
  }

  lemma KeyOrder()
    ensures Less(CLIENT_ID, REQUEST_URI) && Less(REQUEST_URI, REQUEST_URI_METHOD)
  {
    assert CLIENT_ID[0] == 'c' && REQUEST_URI[0] == 'r';
    PrefixLess(REQUEST_URI, "_method");
    assert REQUEST_URI_METHOD == REQUEST_URI + "_method";
  }

  lemma SortThree(a: Bytes, b: Bytes, c: Bytes, form: map<Bytes, Bytes>)
    requires Less(a, b) && Less(b, c) && form.Keys == {a, b, c}
    ensures SortedPairs(form) == [(a, form[a]), (b, form[b]), (c, form[c])]
  {
    LessTransitive(a, b, c);
    ListingUnique([a, b, c], SortedKeys(form.Keys), form.Keys);
  }

  /** The keys of the invocation in strict byte order. */
  lemma InvocationSorted(e: Settings, id: Bytes)
    ensures SortedPairs(InvocationForm(e, id)) == InvocationPairs(e, id)
  {
    KeyOrder();
    LessIrreflexive(REQUEST_URI);
    SortThree(CLIENT_ID, REQUEST_URI, REQUEST_URI_METHOD, InvocationForm(e, id));
  }

  /** The query text of the invocation reads back as the three parameters, and holds no mark. */
  lemma InvocationQuery(e: Settings, id: Bytes)
    ensures var enc := EncodeValues(InvocationForm(e, id));
            ParseQuery(enc) == Form(InvocationPairs(e, id), false) && '#' !in enc && '?' !in enc
  {
    InvocationSorted(e, id);
    ParseWritten(InvocationPairs(e, id));
    WrittenAvoidsMarks(InvocationPairs(e, id));
  }

  lemma SchemePlain()
    ensures '?' !in SCHEME && '#' !in SCHEME
  {
  }

  /** The scheme URI and the QR payload read back as exactly the three parameters. */
  lemma InvocationRoundTrip(e: Settings, s: SessionData, now: int)
    requires s.flow != DCAPI
    ensures var inv := InvocationOf(e, s, now);
            && inv.Ok? && inv.value.ByReference? && inv.value.qrPayload == inv.value.schemeURI
            && FragmentOf(inv.value.schemeURI) == []
            && ParseQuery(QueryOf(inv.value.schemeURI)) == Form(InvocationPairs(e, s.id), false)
            && |inv.value.schemeURI| > 13 && inv.value.schemeURI[..13] == "openid4vp://?"
            && inv.value.universalLink == e.cfg.universalLinkBase + "?" + inv.value.schemeURI[13..]
  {
    InvocationQuery(e, s.id);
    SchemePlain();
    var enc := EncodeValues(InvocationForm(e, s.id));
    QueryAfterMark(SCHEME, enc);
    QueryNotEmpty(e, s.id);
    assert SCHEME + ['?'] == "openid4vp://?";
    assert (SCHEME + ['?'] + enc)[13..] == enc;
  }

  lemma QueryNotEmpty(e: Settings, id: Bytes)
    ensures EncodeValues(InvocationForm(e, id)) != []
  {
    InvocationQuery(e, id);
    EmptyQuery();
  }

  /** Appending `?` and a query to a base without marks. */
  lemma QueryAfterMark(base: Bytes, enc: Bytes)
    requires '?' !in base && '#' !in base && '#' !in enc
    ensures QueryOf(base + ['?'] + enc) == enc && FragmentOf(base + ['?'] + enc) == []
  {
    CutAbsent(base + ['?'] + enc, '#');
    CutJoined(base, '?', enc);
  }

  /** Whatever universal-link base the constructor accepts, the link reads back as the three
      parameters exactly when the base contains neither a query mark nor a fragment mark. */
  lemma UniversalLinkRoundTripIff(e: Settings, s: SessionData, now: int)
    requires s.flow != DCAPI && LawfulURLs(e.lib) && ValidBaseURL(e.lib, e.cfg.universalLinkBase)
    ensures ParseQuery(QueryOf(InvocationOf(e, s, now).value.universalLink)) == Form(InvocationPairs(e, s.id), false)
       <==> '?' !in e.cfg.universalLinkBase && '#' !in e.cfg.universalLinkBase
  {
    InvocationSorted(e, s.id);
    ClientIDKey();
    LinkRoundTripIff(e.cfg.universalLinkBase, InvocationPairs(e, s.id));
  }

  lemma LinkRoundTripIff(base: Bytes, pairs: seq<Pair>)
    requires QueryOf(base) == []
    requires |pairs| > 0 && |pairs[0].0| > 0 && pairs[0].0[0] != '?'
    ensures ParseQuery(QueryOf(base + ['?'] + WritePairs(pairs))) == Form(pairs, false) <==>
            '?' !in base && '#' !in base
  {
    var enc := WritePairs(pairs);
    WrittenAvoidsMarks(pairs);
    if '#' in base {
      FragmentSwallows(base, enc);
      EmptyQuery();
    } else if '?' in base {
      SecondMark(base, enc);
      assert [] + ['?'] + enc == ['?'] + enc;
      MarkedKey(pairs);
    } else {
      QueryAfterMark(base, enc);
      ParseWritten(pairs);
    }
  }

  lemma EmptyQuery()
    ensures ParseQuery([]) == Form([], false)
  {
    assert Split([], '&') == [[]];
    assert ReadSegments([[]]) == Prepend(ReadSegment([]), ReadSegments([]));
  }

  lemma ClientIDKey()
    ensures |CLIENT_ID| > 0 && CLIENT_ID[0] != '?'
  {
  }

  lemma FragmentSwallows(base: Bytes, enc: Bytes)
    requires '#' in base
    ensures QueryOf(base + ['?'] + enc) == QueryOf(base)
  {
    var link := base + ['?'] + enc;
    var i := Index(base, '#');
    IndexAt(link, '#', i);
    assert link[..i] == base[..i];
  }

  lemma SecondMark(base: Bytes, enc: Bytes)
    requires '?' in base && '#' !in base && '#' !in enc
    ensures QueryOf(base + ['?'] + enc) == QueryOf(base) + ['?'] + enc
  {
    var link := base + ['?'] + enc;
    CutAbsent(link, '#');
    CutAbsent(base, '#');
    var i := Index(base, '?');
    IndexAt(link, '?', i);
    assert link[i + 1..] == base[i + 1..] + ['?'] + enc;
  }

  lemma MarkedSegment(p: Pair)
    ensures ReadSegment(['?'] + WritePair(p)) == Read((['?'] + p.0, p.1))
  {
    var k, v := Escape(p.0), Escape(p.1);
    var seg := ['?'] + WritePair(p);
    EscapeAvoids(p.0, '=');
    WrittenPairAvoids(p, ';');
    assert seg == (['?'] + k) + ['='] + v;
    CutJoined(['?'] + k, '=', v);
    UnescapeEscape(p.0);
    UnescapeEscape(p.1);
    assert (['?'] + k)[1..] == k;
    assert ';' !in seg;
  }

  lemma {:induction false} JoinPrefixed(c: Byte, segs: seq<Bytes>)
    requires |segs| > 0
    ensures Join([[c] + segs[0]] + segs[1..], '&') == [c] + Join(segs, '&')
  {
    var marked := [[c] + segs[0]] + segs[1..];
    assert marked[1..] == segs[1..];
    if |segs| > 1 {
      assert [c] + segs[0] + ['&'] + Join(segs[1..], '&') == [c] + (segs[0] + ['&'] + Join(segs[1..], '&'));
    } else {
      assert marked == [[c] + segs[0]];
    }
  }

  /** A stray leading mark becomes part of the first key. */
  lemma MarkedKey(pairs: seq<Pair>)
    requires |pairs| > 0 && |pairs[0].0| > 0 && pairs[0].0[0] != '?'
    ensures ParseQuery(['?'] + WritePairs(pairs)) != Form(pairs, false)
  {
    var segs := seq(|pairs|, i requires 0 <= i < |pairs| => WritePair(pairs[i]));
    var marked := [['?'] + segs[0]] + segs[1..];
    JoinPrefixed('?', segs);
    forall i | 0 <= i < |marked| ensures '&' !in marked[i] { WrittenPairAvoids(pairs[i], '&'); }
    SplitJoin(marked, '&');
    MarkedSegment(pairs[0]);
    assert ReadSegments(marked) == Prepend(ReadSegment(marked[0]), ReadSegments(marked[1..]));
    assert ReadSegments(marked).pairs[0] == (['?'] + pairs[0].0, pairs[0].1);
  }

  /** A base ending in a bare query mark passes validation, and its link does not read back. */
  lemma TrailingMarkAccepted(e: Settings, s: SessionData, now: int)
    requires s.flow != DCAPI && LawfulURLs(e.lib)
    requires e.cfg.universalLinkBase == "https://w/a?"
    requires e.lib.parseURL("https://w/a?") == Some(URL(HTTPS, "w", "w", "/a", [], [], false))
    ensures ValidBaseURL(e.lib, e.cfg.universalLinkBase)
    ensures ParseQuery(QueryOf(InvocationOf(e, s, now).value.universalLink)) != Form(InvocationPairs(e, s.id), false)
  {
    assert e.cfg.universalLinkBase[11] == '?';
    UniversalLinkRoundTripIff(e, s, now);
  }

  /** Under the default builder, different sessions have different request URIs. */
  lemma RequestURIsDistinct(e: Settings, id: Bytes, other: Bytes)
    requires e.cfg.requestURIFunc.None? && id != other
    ensures RequestURI(e, id) != RequestURI(e, other)
  {
    var n := |e.cfg.requestURIBase| + 1;
    assert RequestURI(e, id)[n..] == id && RequestURI(e, other)[n..] == other;
  }
}
