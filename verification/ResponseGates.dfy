/** Which gate of a response path refuses, and with which error: stated on the inputs of the call. */
module ResponseGates {
  import opened GoStrings
  import opened Errors
  import opened Session
  import opened Engine
  import opened FormEncoding
  import opened VPToken
  import opened Response
  import Base64url
  import ErrorResponse

  /** What a response path is given: a posted form with the random source, or the browser's data and origin. */
  datatype Input = Posted(body: Bytes, tape: Tape) | Browser(origin: Bytes, data: Bytes)

  /** The gates in the order in which both paths check them; a path passes the gates it does not have. */
  datatype Gate =
    | RightFlow | Consumed | Unexpired | OriginExpected | WithinCap | BodyReads | NoWalletError | OneJWE
    | KeyParses | Decrypts | APVReads | APVMatches | HasThumbprint | PayloadReads | StateMatches | TokenGood | Mintable

  function Rank(g: Gate): nat {
    match g
    case RightFlow => 0 case Consumed => 1 case Unexpired => 2 case OriginExpected => 3 case WithinCap => 4
    case BodyReads => 5 case NoWalletError => 6 case OneJWE => 7
    case KeyParses => 8 case Decrypts => 9 case APVReads => 10 case APVMatches => 11 case HasThumbprint => 12
    case PayloadReads => 13 case StateMatches => 14 case TokenGood => 15 case Mintable => 16
  }

  function Fields(input: Input): seq<Pair> {
    if input.Posted? then ParseQuery(input.body).pairs else []
  }

  /** The one JWE that the input carries, if it does. */
  function JWEOf(e: Settings, input: Input): Option<Bytes> {
    match input
    case Posted(_, _) =>
      var sent := ValuesOf(Fields(input), "response");
      if |sent| == 1 && sent[0] != [] then Some(sent[0]) else None
    case Browser(_, data) =>
      var jwe := e.lib.parseDCAPIBody(data);
      if jwe.Some? && jwe.value != [] then jwe else None
  }

  function Content(e: Settings, s: SessionData, input: Input): Option<Opened> {
    match (e.lib.parseKey(s.ephemeralKey), JWEOf(e, input))
    case (Some(k), Some(jwe)) => e.lib.open(k, jwe)
    case _ => None
  }

  /** The text under `apv` in the opened header, if there is such a member and it is a text. */
  function APVText(header: map<Bytes, HeaderValue>): Option<Bytes> {
    if "apv" in header && header["apv"].Text? then Some(header["apv"].text) else None
  }

  function Sent(e: Settings, s: SessionData, input: Input): Option<Payload> {
    var content := Content(e, s, input);
    if content.None? then None else e.lib.parsePayload(content.value.plain)
  }

  ghost predicate Passes(e: Settings, s: SessionData, now: int, input: Input, g: Gate) {
    match g
    case RightFlow => s.flow == DCAPI <==> input.Browser?
    case Consumed => s.consumed
    case Unexpired => now < s.expiresAt
    case OriginExpected => input.Browser? ==> input.origin in s.expectedOrigins
    case WithinCap => |if input.Posted? then input.body else input.data| <= e.cfg.maxResponseBody
    case BodyReads => if input.Posted? then !ParseQuery(input.body).bad else e.lib.parseDCAPIBody(input.data).Some?
    case NoWalletError => Get(Fields(input), "error") == []
    case OneJWE => JWEOf(e, input).Some?
    case KeyParses => e.lib.parseKey(s.ephemeralKey).Some?
    case Decrypts => Content(e, s, input).Some?
    case APVReads =>
      var content := Content(e, s, input);
      content.Some? && "apv" in content.value.header ==>
        APVText(content.value.header).Some? && Base64url.Decode(APVText(content.value.header).value).Some?
    case APVMatches =>
      var content := Content(e, s, input);
      content.Some? && APVText(content.value.header).Some? ==>
        Base64url.Decode(APVText(content.value.header).value) == Some(s.nonce)
    case HasThumbprint =>
      var k := e.lib.parseKey(s.ephemeralKey);
      k.Some? && e.lib.thumbprint(e.lib.publicOf(k.value)).Some?
    case PayloadReads => Sent(e, s, input).Some? && Sent(e, s, input).value.vpToken != map[]
    case StateMatches => input.Posted? && Sent(e, s, input).Some? ==> Sent(e, s, input).value.state == s.state
    case TokenGood =>
      Sent(e, s, input).Some? ==>
        var vpToken := Sent(e, s, input).value.vpToken;
        forall id :: id in vpToken ==> GoodKey(s.query, vpToken, id)
    case Mintable => input.Posted? && s.flow == SameDevice ==> input.tape.pos + 16 <= |input.tape.bytes|
  }

  /** `out` is `text` when that has at most 256 bytes; otherwise its first 256 bytes and an ellipsis. */
  predicate Clipped(out: Bytes, text: Bytes) {
    if |text| <= 256 then out == text
    else |out| == 259 && out[..256] == text[..256] && out[256..] == ['\U{E2}', '\U{80}', '\U{A6}']
  }

  /** What a wallet that sends `error` is answered with: a state that is not the session's cannot be attributed. */
  ghost predicate WalletComplaint(s: SessionData, fields: seq<Pair>, err: Error) {
    if Get(fields, "state") != [] && Get(fields, "state") != s.state then err == Is(StateMismatch)
    else
      && err.FromWallet? && Clipped(err.code, Get(fields, "error"))
      && Clipped(err.description, Get(fields, "error_description"))
  }

  /** The fault of the least offending key, at its first bad entry. */
  ghost predicate TokenComplaint(s: SessionData, vpToken: map<Bytes, VPValue>, err: Error) {
    exists id, fault ::
      && id in vpToken && !GoodKey(s.query, vpToken, id) && FaultOf(s, vpToken, id, fault)
      && (forall other :: other in vpToken && !GoodKey(s.query, vpToken, other) ==> other == id || Less(id, other))
      && err == FaultError(fault, id)
  }

  function SentinelOf(g: Gate): Option<Sentinel> {
    match g
    case RightFlow => Some(FlowMismatch)
    case Consumed => Some(SessionNotConsumed)
    case Unexpired => Some(SessionExpired)
    case OriginExpected => Some(OriginNotExpected)
    case WithinCap => Some(BodyTooLarge)
    case BodyReads => Some(MalformedResponse)
    case OneJWE => Some(MalformedResponse)
    case KeyParses => Some(SessionInvalid)
    case Decrypts => Some(DecryptFailed)
    case APVReads => Some(MalformedResponse)
    case APVMatches => Some(APVMismatch)
    case HasThumbprint => Some(SessionInvalid)
    case PayloadReads => Some(MalformedResponse)
    case StateMatches => Some(StateMismatch)
    case _ => None
  }

  ghost predicate Complains(e: Settings, s: SessionData, input: Input, g: Gate, err: Error) {
    match g
    case NoWalletError => WalletComplaint(s, Fields(input), err)
    case TokenGood => Sent(e, s, input).Some? && TokenComplaint(s, Sent(e, s, input).value.vpToken, err)
    case Mintable => forall k :: !Mentions(err, k)
    case _ => OneSentinel(err) && SentinelOf(g).Some? && Mentions(err, SentinelOf(g).value)
  }

  /** `g` is the first gate that fails. */
  ghost predicate FailsFirst(e: Settings, s: SessionData, now: int, input: Input, g: Gate) {
    !Passes(e, s, now, input, g) && forall h :: Rank(h) < Rank(g) ==> Passes(e, s, now, input, h)
  }

  ghost predicate PassesBelow(e: Settings, s: SessionData, now: int, input: Input, n: nat) {
    forall h :: Rank(h) < n ==> Passes(e, s, now, input, h)
  }

  lemma RankInjective(g: Gate, h: Gate)
    requires Rank(g) == Rank(h)
    ensures g == h
  {
  }

  /** One more gate passed. */
  lemma PassNext(e: Settings, s: SessionData, now: int, input: Input, g: Gate)
    requires PassesBelow(e, s, now, input, Rank(g)) && Passes(e, s, now, input, g)
    ensures PassesBelow(e, s, now, input, Rank(g) + 1)
  {
    forall h | Rank(h) < Rank(g) + 1 ensures Passes(e, s, now, input, h) {
      if Rank(h) == Rank(g) { RankInjective(g, h); }
    }
  }

  // ---- The form and the browser's body.

  lemma FormComplains(e: Settings, s: SessionData, now: int, body: Bytes, tape: Tape) returns (g: Gate)
    requires FormGates(e, s, now, body).Err?
    ensures Rank(g) <= 7 && FailsFirst(e, s, now, Posted(body, tape), g)
    ensures Complains(e, s, Posted(body, tape), g, FormGates(e, s, now, body).error)
  {
    var input := Posted(body, tape);
    g := if s.flow == DCAPI then RightFlow else if !s.consumed then Consumed else if now >= s.expiresAt then Unexpired
         else if |body| > e.cfg.maxResponseBody then WithinCap else if ParseQuery(body).bad then BodyReads
         else if Get(Fields(input), "error") != [] then NoWalletError else OneJWE;
  }

  lemma FormPasses(e: Settings, s: SessionData, now: int, body: Bytes, tape: Tape)
    requires FormGates(e, s, now, body).Ok?
    ensures PassesBelow(e, s, now, Posted(body, tape), 8)
    ensures JWEOf(e, Posted(body, tape)) == Some(FormGates(e, s, now, body).value)
  {
    var input := Posted(body, tape);
    PassNext(e, s, now, input, RightFlow);
    PassNext(e, s, now, input, Consumed);
    PassNext(e, s, now, input, Unexpired);
    PassNext(e, s, now, input, OriginExpected);
    PassNext(e, s, now, input, WithinCap);
    PassNext(e, s, now, input, BodyReads);
    PassNext(e, s, now, input, NoWalletError);
    PassNext(e, s, now, input, OneJWE);
  }

  lemma BrowserComplains(e: Settings, s: SessionData, now: int, origin: Bytes, data: Bytes) returns (g: Gate)
    requires RespondDCAPI(e, s, now, origin, data).Err?
    requires !PassesBelow(e, s, now, Browser(origin, data), 8)
    ensures FailsFirst(e, s, now, Browser(origin, data), g)
    ensures Complains(e, s, Browser(origin, data), g, RespondDCAPI(e, s, now, origin, data).error)
  {
    g := if s.flow != DCAPI then RightFlow else if !s.consumed then Consumed else if now >= s.expiresAt then Unexpired
         else if origin !in s.expectedOrigins then OriginExpected
         else if |data| > e.cfg.maxResponseBody then WithinCap
         else if e.lib.parseDCAPIBody(data).None? then BodyReads else OneJWE;
  }

  // ---- The encrypted part.

  /** The errors of the encrypted part, in its order. */
  lemma OpenErrors(e: Settings, s: SessionData, jwe: Bytes)
    requires OpenResponse(e, s, jwe).Err?
    ensures var err := OpenResponse(e, s, jwe).error;
            && OneSentinel(err)
            && var k := e.lib.parseKey(s.ephemeralKey);
               if k.None? then Mentions(err, SessionInvalid)
               else
                 var content := e.lib.open(k.value, jwe);
                 if content.None? then Mentions(err, DecryptFailed)
                 else if AgreementFault(content.value.header, s).Some? then
                   err == AgreementFault(content.value.header, s).value
                 else if e.lib.thumbprint(e.lib.publicOf(k.value)).None? then Mentions(err, SessionInvalid)
                 else Mentions(err, MalformedResponse) && (e.lib.parsePayload(content.value.plain).None?
                      || e.lib.parsePayload(content.value.plain).value.vpToken == map[])
  {
  }

  lemma AgreementErrors(header: map<Bytes, HeaderValue>, s: SessionData)
    ensures var text := APVText(header);
            if "apv" !in header then AgreementFault(header, s).None?
            else if text.None? || Base64url.Decode(text.value).None? then
              AgreementFault(header, s).Some? && Mentions(AgreementFault(header, s).value, MalformedResponse)
            else if Base64url.Decode(text.value) != Some(s.nonce) then
              AgreementFault(header, s).Some? && Mentions(AgreementFault(header, s).value, APVMismatch)
            else AgreementFault(header, s).None?
  {
  }

  lemma OpenPasses(e: Settings, s: SessionData, now: int, input: Input, jwe: Bytes)
    requires JWEOf(e, input) == Some(jwe) && PassesBelow(e, s, now, input, 8) && OpenResponse(e, s, jwe).Ok?
    ensures PassesBelow(e, s, now, input, 14)
    ensures Sent(e, s, input) == Some(OpenResponse(e, s, jwe).value.0)
  {
    AgreementErrors(Content(e, s, input).value.header, s);
    PassNext(e, s, now, input, KeyParses);
    PassNext(e, s, now, input, Decrypts);
    PassNext(e, s, now, input, APVReads);
    PassNext(e, s, now, input, APVMatches);
    PassNext(e, s, now, input, HasThumbprint);
    PassNext(e, s, now, input, PayloadReads);
  }

  lemma OpenComplains(e: Settings, s: SessionData, now: int, input: Input, jwe: Bytes) returns (g: Gate)
    requires JWEOf(e, input) == Some(jwe) && OpenResponse(e, s, jwe).Err?
    requires PassesBelow(e, s, now, input, 8)
    ensures FailsFirst(e, s, now, input, g) && Complains(e, s, input, g, OpenResponse(e, s, jwe).error)
    ensures Rank(g) <= 13
  {
    OpenErrors(e, s, jwe);
    if e.lib.parseKey(s.ephemeralKey).None? { return KeyParses; }
    PassNext(e, s, now, input, KeyParses);
    if Content(e, s, input).None? { return Decrypts; }
    PassNext(e, s, now, input, Decrypts);
    AgreementErrors(Content(e, s, input).value.header, s);
    g := AgreementComplains(e, s, now, input, OpenResponse(e, s, jwe).error);
  }

  lemma AgreementComplains(e: Settings, s: SessionData, now: int, input: Input, err: Error) returns (g: Gate)
    requires PassesBelow(e, s, now, input, 10) && OneSentinel(err)
    requires var k, content := e.lib.parseKey(s.ephemeralKey), Content(e, s, input);
             && k.Some? && content.Some?
             && if AgreementFault(content.value.header, s).Some? then
                  err == AgreementFault(content.value.header, s).value
                else if e.lib.thumbprint(e.lib.publicOf(k.value)).None? then Mentions(err, SessionInvalid)
                else Mentions(err, MalformedResponse) && (Sent(e, s, input).None?
                     || Sent(e, s, input).value.vpToken == map[])
    ensures FailsFirst(e, s, now, input, g) && Complains(e, s, input, g, err)
    ensures Rank(g) <= 13
  {
    AgreementErrors(Content(e, s, input).value.header, s);
    if !Passes(e, s, now, input, APVReads) { return APVReads; }
    PassNext(e, s, now, input, APVReads);
    if !Passes(e, s, now, input, APVMatches) { return APVMatches; }
    PassNext(e, s, now, input, APVMatches);
    if !Passes(e, s, now, input, HasThumbprint) { return HasThumbprint; }
    PassNext(e, s, now, input, HasThumbprint);
    return PayloadReads;
  }

  lemma TokenComplains(s: SessionData, vpToken: map<Bytes, VPValue>, thumbprint: Bytes)
    ensures Flatten(s, vpToken, thumbprint).Err? ==> TokenComplaint(s, vpToken, Flatten(s, vpToken, thumbprint).error)
    ensures Flatten(s, vpToken, thumbprint).Ok? <==> forall id :: id in vpToken ==> GoodKey(s.query, vpToken, id)
  {
    FlattenSucceedsIff(s, vpToken, thumbprint);
    if Flatten(s, vpToken, thumbprint).Err? { var id, fault := FlattenFault(s, vpToken, thumbprint); }
  }

  // ---- The two paths.

  /** `ProcessResponse` refuses at the first gate that fails, with that gate's error; the session stays as
      it was, and the random source is touched only by a mint that fails. */
  lemma RespondComplains(e: Settings, s: SessionData, now: int, body: Bytes, tape: Tape) returns (g: Gate)
    requires Respond(e, s, now, body, tape).2.Err?
    ensures FailsFirst(e, s, now, Posted(body, tape), g)
    ensures Complains(e, s, Posted(body, tape), g, Respond(e, s, now, body, tape).2.error)
    ensures Respond(e, s, now, body, tape).0 == s
    ensures Respond(e, s, now, body, tape).1 == if g == Mintable then tape.(pos := |tape.bytes|) else tape
  {
    var form := FormGates(e, s, now, body);
    if form.Err? {
      g := FormComplains(e, s, now, body, tape);
    } else {
      FormPasses(e, s, now, body, tape);
      g := PostedComplains(e, s, now, body, tape, form.value);
    }
  }

  lemma PostedComplains(e: Settings, s: SessionData, now: int, body: Bytes, tape: Tape, jwe: Bytes) returns (g: Gate)
    requires FormGates(e, s, now, body) == Ok(jwe) && Respond(e, s, now, body, tape).2.Err?
    requires PassesBelow(e, s, now, Posted(body, tape), 8) && JWEOf(e, Posted(body, tape)) == Some(jwe)
    ensures FailsFirst(e, s, now, Posted(body, tape), g)
    ensures Complains(e, s, Posted(body, tape), g, Respond(e, s, now, body, tape).2.error)
    ensures Respond(e, s, now, body, tape).0 == s
    ensures Respond(e, s, now, body, tape).1 == if g == Mintable then tape.(pos := |tape.bytes|) else tape
  {
    var input := Posted(body, tape);
    var plain := OpenResponse(e, s, jwe);
    if plain.Err? {
      g := OpenComplains(e, s, now, input, jwe);
      return;
    }
    OpenPasses(e, s, now, input, jwe);
    var (payload, thumbprint) := plain.value;
    TokenComplains(s, payload.vpToken, thumbprint);
    if payload.state != s.state { return StateMatches; }
    PassNext(e, s, now, input, StateMatches);
    if Flatten(s, payload.vpToken, thumbprint).Err? { return TokenGood; }
    PassNext(e, s, now, input, TokenGood);
    return Mintable;
  }

  /** `ProcessDCAPIResponse` likewise, at its own gates. */
  lemma RespondDCAPIComplains(e: Settings, s: SessionData, now: int, origin: Bytes, data: Bytes) returns (g: Gate)
    requires RespondDCAPI(e, s, now, origin, data).Err?
    ensures FailsFirst(e, s, now, Browser(origin, data), g)
    ensures Complains(e, s, Browser(origin, data), g, RespondDCAPI(e, s, now, origin, data).error)
  {
    var input := Browser(origin, data);
    if !PassesBelow(e, s, now, input, 8) {
      g := BrowserComplains(e, s, now, origin, data);
      return;
    }
    assert Passes(e, s, now, input, RightFlow) && Passes(e, s, now, input, Consumed);
    assert Passes(e, s, now, input, Unexpired) && Passes(e, s, now, input, OriginExpected);
    assert Passes(e, s, now, input, WithinCap);
    assert Passes(e, s, now, input, OneJWE);
    g := OpenedComplains(e, s, now, origin, data, JWEOf(e, input).value);
  }

  lemma OpenedComplains(e: Settings, s: SessionData, now: int, origin: Bytes, data: Bytes, jwe: Bytes) returns (g: Gate)
    requires s.flow == DCAPI && s.consumed && now < s.expiresAt && origin in s.expectedOrigins
    requires |data| <= e.cfg.maxResponseBody && JWEOf(e, Browser(origin, data)) == Some(jwe)
    requires RespondDCAPI(e, s, now, origin, data).Err? && PassesBelow(e, s, now, Browser(origin, data), 8)
    ensures FailsFirst(e, s, now, Browser(origin, data), g)
    ensures Complains(e, s, Browser(origin, data), g, RespondDCAPI(e, s, now, origin, data).error)
  {
    var input := Browser(origin, data);
    var plain := OpenResponse(e, s, jwe);
    if plain.Err? {
      g := OpenComplains(e, s, now, input, jwe);
      return;
    }
    OpenPasses(e, s, now, input, jwe);
    TokenComplains(s, plain.value.0.vpToken, plain.value.1);
    PassNext(e, s, now, input, StateMatches);
    return TokenGood;
  }

  // ---- A wallet that declines.

  /** What a wallet posts that declines with `code`, naming the session. */
  function Refusal(code: Bytes, state: Bytes): Bytes {
    WritePairs([(ERROR, code), (STATE, state)])
  }

  lemma TwoFields(k: Bytes, v: Bytes, l: Bytes, w: Bytes, key: Bytes)
    ensures ValuesOf([(k, v), (l, w)], key) == ValueIf((k, v), key) + ValueIf((l, w), key)
  {
    var pairs: seq<Pair> := [(k, v), (l, w)];
    assert pairs[1..] == [(l, w)] && pairs[1..][1..] == [];
    assert ValuesOf(pairs[1..], key) == ValueIf((l, w), key) + [];
  }

  lemma FieldNames()
    ensures ERROR != STATE && ERROR_DESCRIPTION != ERROR && ERROR_DESCRIPTION != STATE
  {
    assert ERROR[0] != STATE[0] && ERROR_DESCRIPTION[0] != STATE[0];
    assert |ERROR| != |ERROR_DESCRIPTION|;
  }

  lemma RefusalFields(code: Bytes, state: Bytes)
    ensures var form := ParseQuery(Refusal(code, state));
            && !form.bad
            && Get(form.pairs, ERROR) == code && Get(form.pairs, STATE) == state
            && Get(form.pairs, ERROR_DESCRIPTION) == []
  {
    FieldNames();
    TwoFieldForm(ERROR, code, STATE, state, ERROR_DESCRIPTION);
  }

  lemma TwoFieldForm(k: Bytes, v: Bytes, l: Bytes, w: Bytes, absent: Bytes)
    requires k != l && absent != k && absent != l
    ensures var form := ParseQuery(WritePairs([(k, v), (l, w)]));
            !form.bad && Get(form.pairs, k) == v && Get(form.pairs, l) == w && Get(form.pairs, absent) == []
  {
    ParseWritten([(k, v), (l, w)]);
    TwoFields(k, v, l, w, k);
    TwoFields(k, v, l, w, l);
    TwoFields(k, v, l, w, absent);
  }

  /** A wallet that declines is answered as what it sent: the clipped code, no description, and at
      the boundary 400 with its registered code, or invalid_request for any other. */
  lemma RefusalIsAnswered(e: Settings, s: SessionData, now: int, code: Bytes, state: Bytes, tape: Tape)
    requires s.flow != DCAPI && s.consumed && now < s.expiresAt && code != []
    requires |Refusal(code, state)| <= e.cfg.maxResponseBody
    ensures var (s', t, r) := Respond(e, s, now, Refusal(code, state), tape);
            && s' == s && t == tape && r.Err?
            && if state != [] && state != s.state then r.error == Is(StateMismatch)
               else
                 && r.error.FromWallet? && Clipped(r.error.code, code) && r.error.description == []
                 && var reply := ErrorResponse.ReplyTo(ErrorResponse.ERROR_TABLE, r.error);
                    reply.status == 400 && reply.code == if ErrorResponse.Echoed(code) then code else "invalid_request"
  {
    RefusalFields(code, state);
    var err := Respond(e, s, now, Refusal(code, state), tape).2.error;
    if err.FromWallet? { ErrorResponse.WalletReply(err, code); }
  }
}
