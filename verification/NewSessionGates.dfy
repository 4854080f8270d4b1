/** Exactly when a session is created, from which data, and which gate refuses it with which error:
    stated on the specification and its parsed URLs. */
module NewSessionGates {
  import opened GoStrings
  import opened Errors
  import opened Session
  import opened Engine
  import opened NewSession
  import Base64url
  import RequestObject

  /** The gates of `NewSession` in their order. */
  datatype Gate =
    | HasRegistration | HasCredentials | QueryValid | DataEnabled | DataObjects | FlowRules
    | Tokens | KeyMade | KeyMarshals | Claimable | Signed

  function Rank(g: Gate): nat {
    match g
    case HasRegistration => 0 case HasCredentials => 1 case QueryValid => 2 case DataEnabled => 3
    case DataObjects => 4 case FlowRules => 5
    case Tokens => 6 case KeyMade => 7 case KeyMarshals => 8 case Claimable => 9 case Signed => 10
  }

  /** An absolute https URL. */
  predicate Secure(lib: Library, raw: Bytes) {
    var u := lib.parseURL(raw);
    raw != [] && u.Some? && u.value.scheme == "https" && u.value.host != []
  }

  /** A secure URL on the client's own DNS name. */
  predicate Endpoint(e: Settings, raw: Bytes) {
    Secure(e.lib, raw) && e.lib.parseURL(raw).value.hostname == e.cfg.clientDNSName
  }

  /** An https origin and nothing more. */
  predicate Origin(lib: Library, raw: Bytes) {
    var u := lib.parseURL(raw);
    && u.Some? && u.value.scheme == "https" && u.value.host != [] && !u.value.hasUser
    && u.value.path == [] && u.value.rawQuery == [] && u.value.fragment == []
  }

  predicate ObeysFlow(e: Settings, spec: RequestSpec) {
    match spec.flow
    case SameDevice => Endpoint(e, spec.responseURI) && Secure(e.lib, spec.returnURI) && spec.expectedOrigins == []
    case CrossDevice => Endpoint(e, spec.responseURI) && spec.returnURI == [] && spec.expectedOrigins == []
    case DCAPI =>
      && spec.responseURI == [] && spec.returnURI == [] && spec.expectedOrigins != []
      && forall i :: 0 <= i < |spec.expectedOrigins| ==> Origin(e.lib, spec.expectedOrigins[i])
    case OtherFlow(_) => false
  }

  /** The token of the `n`-th block after the reader's position. */
  function TokenAt(tape: Tape, n: nat): Bytes
    requires tape.pos + 16 * (n + 1) <= |tape.bytes|
  {
    Base64url.Encode(tape.bytes[tape.pos + 16 * n..tape.pos + 16 * (n + 1)])
  }

  /** The request that a DCAPI creation signs. */
  function FirstRequest(e: Settings, spec: RequestSpec, key: PrivateKey, now: int, tape: Tape): Request
    requires tape.pos + 48 <= |tape.bytes|
  {
    DCAPIClaims(
      TokenAt(tape, 1), spec.query, e.lib.publicOf(key), TokenAt(tape, 0), spec.registration,
      if spec.wrprc == [] then None else Some(spec.wrprc),
      if spec.transactionData == [] || !e.cfg.enableTransactionData then None
      else Some(seq(|spec.transactionData|, i requires 0 <= i < |spec.transactionData| =>
                  Base64url.Encode(spec.transactionData[i]))),
      Some(SignedPart(e.clientID, spec.expectedOrigins, now, now + e.cfg.sessionTTL)))
  }

  ghost predicate Passes(e: Settings, spec: RequestSpec, key: Option<PrivateKey>, now: int, tape: Tape, g: Gate) {
    match g
    case HasRegistration => spec.registration != Registration([], [], [], [])
    case HasCredentials => spec.query.credentials != []
    case QueryValid => e.lib.validQuery(spec.query)
    case DataEnabled => spec.transactionData != [] ==> e.cfg.enableTransactionData
    case DataObjects => forall i :: 0 <= i < |spec.transactionData| ==> e.lib.isJSONObject(spec.transactionData[i])
    case FlowRules => ObeysFlow(e, spec)
    case Tokens => tape.pos + 48 <= |tape.bytes|
    case KeyMade => key.Some?
    case KeyMarshals => key.Some? && e.lib.marshalKey(key.value).Some?
    case Claimable => spec.flow == DCAPI ==> e.lib.claimable(spec.registration)
    case Signed =>
      spec.flow == DCAPI ==>
        tape.pos + 48 <= |tape.bytes| && key.Some? && e.lib.sign(FirstRequest(e, spec, key.value, now, tape)).Some?
  }

  function SentinelOf(g: Gate): Option<Sentinel> {
    match g
    case HasRegistration => Some(NoRegistration)
    case HasCredentials => Some(BadSpec)
    case QueryValid => Some(BadSpec)
    case DataEnabled => Some(TransactionDataDisabled)
    case DataObjects => Some(TransactionDataInvalid)
    case FlowRules => Some(BadSpec)
    case KeyMarshals => Some(BadConfig)
    case Claimable => Some(NoRegistration)
    case _ => None
  }

  /** The error has the gate's sentinel and no other, or none where a foreign call failed. */
  ghost predicate Complains(g: Gate, err: Error) {
    match SentinelOf(g)
    case Some(k) => OneSentinel(err) && Mentions(err, k)
    case None => forall k :: !Mentions(err, k)
  }

  ghost predicate PassesBelow(e: Settings, spec: RequestSpec, key: Option<PrivateKey>, now: int, tape: Tape, n: nat) {
    forall h :: Rank(h) < n ==> Passes(e, spec, key, now, tape, h)
  }

  /** `g` is the first gate that fails. */
  ghost predicate FailsFirst(e: Settings, spec: RequestSpec, key: Option<PrivateKey>, now: int, tape: Tape, g: Gate) {
    !Passes(e, spec, key, now, tape, g) && PassesBelow(e, spec, key, now, tape, Rank(g))
  }

  lemma RankInjective(g: Gate, h: Gate)
    requires Rank(g) == Rank(h)
    ensures g == h
  {
  }

  lemma PassNext(e: Settings, spec: RequestSpec, key: Option<PrivateKey>, now: int, tape: Tape, g: Gate)
    requires PassesBelow(e, spec, key, now, tape, Rank(g)) && Passes(e, spec, key, now, tape, g)
    ensures PassesBelow(e, spec, key, now, tape, Rank(g) + 1)
  {
    forall h | Rank(h) < Rank(g) + 1 ensures Passes(e, spec, key, now, tape, h) {
      if Rank(h) == Rank(g) { RankInjective(g, h); }
    }
  }

  lemma SpecComplains(e: Settings, spec: RequestSpec, key: Option<PrivateKey>, now: int, tape: Tape) returns (g: Gate)
    requires SpecFault(e, spec).Some?
    ensures FailsFirst(e, spec, key, now, tape, g) && Rank(g) <= 5 && Complains(g, SpecFault(e, spec).value)
  {
    if spec.registration == Registration([], [], [], []) { return HasRegistration; }
    PassNext(e, spec, key, now, tape, HasRegistration);
    if spec.query.credentials == [] { return HasCredentials; }
    PassNext(e, spec, key, now, tape, HasCredentials);
    if !e.lib.validQuery(spec.query) { return QueryValid; }
    PassNext(e, spec, key, now, tape, QueryValid);
    if spec.transactionData != [] && !e.cfg.enableTransactionData { return DataEnabled; }
    PassNext(e, spec, key, now, tape, DataEnabled);
    if !Passes(e, spec, key, now, tape, DataObjects) { return DataObjects; }
    PassNext(e, spec, key, now, tape, DataObjects);
    FlowComplains(e, spec);
    return FlowRules;
  }

  lemma FlowComplains(e: Settings, spec: RequestSpec)
    ensures FlowFault(e, spec).None? <==> ObeysFlow(e, spec)
    ensures FlowFault(e, spec).Some? ==> Complains(FlowRules, FlowFault(e, spec).value)
  {
  }

  lemma SpecPasses(e: Settings, spec: RequestSpec, key: Option<PrivateKey>, now: int, tape: Tape)
    requires SpecFault(e, spec).None?
    ensures PassesBelow(e, spec, key, now, tape, 6)
  {
    FlowComplains(e, spec);
  }

  /** The session that creation builds from the specification and the next three tokens. */
  function Built(e: Settings, spec: RequestSpec, key: PrivateKey, der: Bytes, now: int, tape: Tape): SessionData
    requires tape.pos + 48 <= |tape.bytes|
  {
    SessionFrom(e, spec, TokenAt(tape, 0), TokenAt(tape, 1), TokenAt(tape, 2), der, now)
  }

  lemma BuiltData(e: Settings, spec: RequestSpec, key: PrivateKey, der: Bytes, now: int, tape: Tape)
    requires tape.pos + 48 <= |tape.bytes|
    ensures RequestObject.RequestedTransactionData(e, Built(e, spec, key, der, now, tape)) ==
            FirstRequest(e, spec, key, now, tape).transactionData
  {
    if spec.transactionData != [] && e.cfg.enableTransactionData {
      assert RequestObject.TransactionDataStrings(spec.transactionData) ==
             FirstRequest(e, spec, key, now, tape).transactionData.value;
    }
  }

  lemma BuiltClaims(e: Settings, spec: RequestSpec, key: PrivateKey, der: Bytes, now: int, tape: Tape)
    requires tape.pos + 48 <= |tape.bytes| && spec.registration != Registration([], [], [], [])
    requires e.lib.parseKey(der) == Some(key) && e.lib.claimable(spec.registration)
    ensures RequestObject.ClaimsForDCAPI(e, Built(e, spec, key, der, now, tape), true, now) ==
            Ok(FirstRequest(e, spec, key, now, tape))
  {
    BuiltData(e, spec, key, der, now, tape);
  }

  lemma BuiltUnclaimable(e: Settings, spec: RequestSpec, key: PrivateKey, der: Bytes, now: int, tape: Tape)
    requires tape.pos + 48 <= |tape.bytes| && spec.registration != Registration([], [], [], [])
    requires !e.lib.claimable(spec.registration)
    ensures RequestObject.ClaimsForDCAPI(e, Built(e, spec, key, der, now, tape), true, now) ==
            Err(WrappingForeign(NoRegistration))
  {
  }

  /** Three draws: three tokens, or the source is used up. */
  lemma ThreeTokens(tape: Tape)
    ensures var (t1, x) := NextToken(tape);
            var (t2, y) := NextToken(t1);
            var (t3, z) := NextToken(t2);
            if tape.pos + 48 <= |tape.bytes| then
              && x == Ok(TokenAt(tape, 0)) && y == Ok(TokenAt(tape, 1)) && z == Ok(TokenAt(tape, 2))
              && t3 == tape.(pos := tape.pos + 48)
            else
              && (x.Err? ==> t1.pos == |tape.bytes|) && (x.Ok? && y.Err? ==> t2.pos == |tape.bytes|)
              && (x.Ok? && y.Ok? ==> z.Err? && t3.pos == |tape.bytes|)
  {
  }

  lemma DrawComplains(tape: Tape)
    ensures NextToken(tape).1.Err? ==> Complains(Tokens, NextToken(tape).1.error)
  {
  }

  lemma CreateRunsOut(e: Settings, spec: RequestSpec, key: Option<PrivateKey>, now: int, tape: Tape)
    requires SpecFault(e, spec).None? && tape.pos + 48 > |tape.bytes|
    ensures var (t, r) := Create(e, spec, key, now, tape);
            t == tape.(pos := |tape.bytes|) && r.Err? && Complains(Tokens, r.error)
  {
    ThreeTokens(tape);
    var (t1, x) := NextToken(tape);
    var (t2, y) := NextToken(t1);
    DrawComplains(tape);
    DrawComplains(t1);
    DrawComplains(t2);
  }

  /** What creation gives once the three tokens are drawn, from what the invocation of the built session gives. */
  ghost predicate DrawnResult(e: Settings, spec: RequestSpec, key: Option<PrivateKey>, now: int, tape: Tape,
                              inv: Result<Invocation>, r: Result<Created>)
    requires tape.pos + 48 <= |tape.bytes|
  {
    if key.None? then r == Err(Foreign)
    else
      var der := e.lib.marshalKey(key.value);
      if der.None? then r == Err(WrappingForeign(BadConfig))
      else if inv.Err? then r == Err(inv.error)
      else r == Ok(Created(Built(e, spec, key.value, der.value, now, tape), inv.value))
  }

  /** The session that creation builds from the generated key. */
  function BuiltFrom(e: Settings, spec: RequestSpec, key: Option<PrivateKey>, now: int, tape: Tape): SessionData
    requires tape.pos + 48 <= |tape.bytes| && key.Some? && e.lib.marshalKey(key.value).Some?
  {
    Built(e, spec, key.value, e.lib.marshalKey(key.value).value, now, tape)
  }

  lemma CreateDrawsThree(e: Settings, spec: RequestSpec, key: Option<PrivateKey>, now: int, tape: Tape)
    requires SpecFault(e, spec).None? && tape.pos + 48 <= |tape.bytes|
    ensures Create(e, spec, key, now, tape).0 == tape.(pos := tape.pos + 48)
    ensures var inv := if key.Some? && e.lib.marshalKey(key.value).Some?
                       then InvocationOf(e, BuiltFrom(e, spec, key, now, tape), now) else Err(Foreign);
            DrawnResult(e, spec, key, now, tape, inv, Create(e, spec, key, now, tape).1)
  {
    ThreeTokens(tape);
  }

  /** What the invocation of the built session may give. */
  ghost predicate InvokesAs(e: Settings, spec: RequestSpec, key: PrivateKey, now: int, tape: Tape,
                            r: Result<Invocation>)
    requires tape.pos + 48 <= |tape.bytes|
  {
    if spec.flow != DCAPI then r.Ok?
    else if !e.lib.claimable(spec.registration) then r.Err? && Complains(Claimable, r.error)
    else if e.lib.sign(FirstRequest(e, spec, key, now, tape)).None? then r.Err? && Complains(Signed, r.error)
    else r.Ok?
  }

  lemma BuiltInvokes(e: Settings, spec: RequestSpec, key: PrivateKey, der: Bytes, now: int, tape: Tape)
    requires tape.pos + 48 <= |tape.bytes| && spec.registration != Registration([], [], [], [])
    requires e.lib.parseKey(der) == Some(key) && e.cfg.sessionTTL > 0
    ensures InvokesAs(e, spec, key, now, tape, InvocationOf(e, Built(e, spec, key, der, now, tape), now))
  {
    if e.lib.claimable(spec.registration) {
      BuiltClaims(e, spec, key, der, now, tape);
    } else {
      BuiltUnclaimable(e, spec, key, der, now, tape);
    }
  }

  /** Creation with enough tokens: the key, and for DCAPI the signed request. */
  lemma DrawnComplains(e: Settings, spec: RequestSpec, key: Option<PrivateKey>, now: int, tape: Tape,
                       inv: Result<Invocation>, r: Result<Created>) returns (g: Option<Gate>)
    requires tape.pos + 48 <= |tape.bytes| && PassesBelow(e, spec, key, now, tape, 7)
    requires DrawnResult(e, spec, key, now, tape, inv, r)
    requires key.Some? && e.lib.marshalKey(key.value).Some? ==> InvokesAs(e, spec, key.value, now, tape, inv)
    ensures (g.None? <==> r.Ok?) && (g.Some? ==> Complains(g.value, r.error))
    ensures g.None? ==> PassesBelow(e, spec, key, now, tape, 11)
    ensures g.Some? ==> Rank(g.value) > 6 && FailsFirst(e, spec, key, now, tape, g.value)
  {
    if key.None? { return Some(KeyMade); }
    PassNext(e, spec, key, now, tape, KeyMade);
    var der := e.lib.marshalKey(key.value);
    if der.None? { return Some(KeyMarshals); }
    PassNext(e, spec, key, now, tape, KeyMarshals);
    g := InvocationComplains(e, spec, key, now, tape, inv);
  }

  lemma InvocationComplains(e: Settings, spec: RequestSpec, key: Option<PrivateKey>, now: int, tape: Tape,
                            inv: Result<Invocation>) returns (g: Option<Gate>)
    requires tape.pos + 48 <= |tape.bytes| && key.Some? && PassesBelow(e, spec, key, now, tape, 9)
    requires InvokesAs(e, spec, key.value, now, tape, inv)
    ensures (g.None? <==> inv.Ok?) && (g.Some? ==> Complains(g.value, inv.error))
    ensures g.None? ==> PassesBelow(e, spec, key, now, tape, 11)
    ensures g.Some? ==> Rank(g.value) >= 9 && FailsFirst(e, spec, key, now, tape, g.value)
  {
    if !Passes(e, spec, key, now, tape, Claimable) { return Some(Claimable); }
    PassNext(e, spec, key, now, tape, Claimable);
    if !Passes(e, spec, key, now, tape, Signed) { return Some(Signed); }
    PassNext(e, spec, key, now, tape, Signed);
    return None;
  }

  /** Creation after validation. */
  lemma LateComplains(e: Settings, spec: RequestSpec, key: Option<PrivateKey>, now: int, tape: Tape)
    returns (g: Option<Gate>)
    requires LawfulKeys(e.lib) && e.cfg.sessionTTL > 0 && SpecFault(e, spec).None?
    requires PassesBelow(e, spec, key, now, tape, 6)
    ensures var (t, r) := Create(e, spec, key, now, tape);
            && (g.None? <==> r.Ok?)
            && (g.Some? ==> Complains(g.value, r.error))
            && (g.Some? ==> t == tape.(pos := if g.value == Tokens then |tape.bytes| else tape.pos + 48))
    ensures g.None? ==> PassesBelow(e, spec, key, now, tape, 11)
    ensures g.Some? ==> Rank(g.value) >= 6 && FailsFirst(e, spec, key, now, tape, g.value)
  {
    assert Passes(e, spec, key, now, tape, HasRegistration);
    if tape.pos + 48 > |tape.bytes| {
      CreateRunsOut(e, spec, key, now, tape);
      return Some(Tokens);
    }
    CreateDrawsThree(e, spec, key, now, tape);
    PassNext(e, spec, key, now, tape, Tokens);
    var inv: Result<Invocation> := Err(Foreign);
    if key.Some? && e.lib.marshalKey(key.value).Some? {
      BuiltInvokes(e, spec, key.value, e.lib.marshalKey(key.value).value, now, tape);
      inv := InvocationOf(e, BuiltFrom(e, spec, key, now, tape), now);
    }
    g := DrawnComplains(e, spec, key, now, tape, inv, Create(e, spec, key, now, tape).1);
  }

  /** The first gate that fails, if one does, and what the call then gives. */
  lemma FirstGate(e: Settings, spec: RequestSpec, key: Option<PrivateKey>, now: int, tape: Tape)
    returns (g: Option<Gate>)
    requires LawfulKeys(e.lib) && e.cfg.sessionTTL > 0
    ensures var (t, r) := Create(e, spec, key, now, tape);
            && (g.None? <==> r.Ok?)
            && (g.Some? ==> Complains(g.value, r.error))
            && (g.Some? ==> t == if Rank(g.value) <= 5 then tape
                                 else tape.(pos := if g.value == Tokens then |tape.bytes| else tape.pos + 48))
    ensures g.None? ==> PassesBelow(e, spec, key, now, tape, 11)
    ensures g.Some? ==> FailsFirst(e, spec, key, now, tape, g.value)
  {
    if SpecFault(e, spec).Some? {
      var early := SpecComplains(e, spec, key, now, tape);
      g := Some(early);
    } else {
      SpecPasses(e, spec, key, now, tape);
      g := LateComplains(e, spec, key, now, tape);
    }
  }

  ghost predicate PassesAll(e: Settings, spec: RequestSpec, key: Option<PrivateKey>, now: int, tape: Tape) {
    forall g :: Passes(e, spec, key, now, tape, g)
  }

  lemma AllPass(e: Settings, spec: RequestSpec, key: Option<PrivateKey>, now: int, tape: Tape)
    requires PassesBelow(e, spec, key, now, tape, 11)
    ensures PassesAll(e, spec, key, now, tape)
  {
    forall g ensures Passes(e, spec, key, now, tape, g) { assert Rank(g) < 11; }
  }

  /** A session is created exactly when every gate is passed. */
  lemma CreateSucceedsIff(e: Settings, spec: RequestSpec, key: Option<PrivateKey>, now: int, tape: Tape)
    requires LawfulKeys(e.lib) && e.cfg.sessionTTL > 0
    ensures Create(e, spec, key, now, tape).1.Ok? <==> PassesAll(e, spec, key, now, tape)
  {
    var g := FirstGate(e, spec, key, now, tape);
    if g.None? { AllPass(e, spec, key, now, tape); }
  }

  /** A refused creation fails with the error of the first gate that fails. A specification that is
      refused draws nothing from the random source, a source that is too short is used up, and any later
      failure leaves it after three tokens. */
  lemma CreateComplains(e: Settings, spec: RequestSpec, key: Option<PrivateKey>, now: int, tape: Tape) returns (g: Gate)
    requires LawfulKeys(e.lib) && e.cfg.sessionTTL > 0
    requires Create(e, spec, key, now, tape).1.Err?
    ensures FailsFirst(e, spec, key, now, tape, g) && Complains(g, Create(e, spec, key, now, tape).1.error)
    ensures Create(e, spec, key, now, tape).0 ==
            if Rank(g) <= 5 then tape else tape.(pos := if g == Tokens then |tape.bytes| else tape.pos + 48)
  {
    var first := FirstGate(e, spec, key, now, tape);
    g := first.value;
  }

  /** A created session carries the specification, the engine's client id, the generated key, the next three tokens
      and the time, and no mark; its invocation is that of this session. */
  lemma CreateCopies(e: Settings, spec: RequestSpec, key: Option<PrivateKey>, now: int, tape: Tape)
    requires LawfulKeys(e.lib) && Create(e, spec, key, now, tape).1.Ok?
    ensures var s := Create(e, spec, key, now, tape).1.value.session;
            && s.flow == spec.flow && s.responseURI == spec.responseURI && s.returnURI == spec.returnURI
            && s.query == spec.query && s.registration == spec.registration && s.wrprc == spec.wrprc
            && s.transactionData == spec.transactionData && s.expectedOrigins == spec.expectedOrigins
            && s.clientID == e.clientID && key.Some? && e.lib.parseKey(s.ephemeralKey) == key
            && tape.pos + 48 <= |tape.bytes|
            && s.id == TokenAt(tape, 0) && s.nonce == TokenAt(tape, 1) && s.state == TokenAt(tape, 2)
            && s.createdAt == now && s.expiresAt == now + e.cfg.sessionTTL
            && !s.requestObjectServed && s.walletMetadata == [] && !s.consumed
            && s.responseCode == [] && !s.responseCodeUsed
    ensures InvocationOf(e, Create(e, spec, key, now, tape).1.value.session, now) ==
            Ok(Create(e, spec, key, now, tape).1.value.invocation)
  {
    if tape.pos + 48 > |tape.bytes| {
      CreateRunsOut(e, spec, key, now, tape);
    } else {
      CreateDrawsThree(e, spec, key, now, tape);
    }
  }
}
