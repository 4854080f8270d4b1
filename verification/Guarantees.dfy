/** The guarantees of the protocol over whole runs. */
module Guarantees {
  import opened GoStrings
  import opened Errors
  import opened Session
  import opened Engine
  import opened MemStore
  import opened History
  import opened Runs
  import opened Protocol
  import opened Freshness
  import NewSession
  import RecordRuns
  import RequestObject
  import Response
  import SameDeviceReturn
  import TransactionData
  import Transcript
  import VPToken

  /** A run of a constructed engine with lawful libraries, in which no session is built by hand. */
  ghost predicate EngineRun(e: Settings, bytes: Bytes, start: int, steps: seq<Step>, st: State) {
    Ready(e) && Lawful(e.lib) && Reaches(e, bytes, start, steps, st) && AllCreated(steps)
  }

  /** A copy of a session somewhere in the system: stored, held by a handler, or inside a call. */
  ghost predicate InPlay(st: State, s: SessionData) {
    || (exists id :: id in st.store && st.store[id] == s)
    || (exists h :: h in st.copies && st.copies[h] == s)
    || (exists c :: c in st.calls && Carries(st.calls[c], s))
  }

  predicate Carries(pc: Pc, s: SessionData) {
    match pc
    case Called(op) => op.OpSave? && op.s == s
    case Locked(op) => op.OpSave? && op.s == s
    case Looked(_, found) => found == Some(s)
    case Stale(_) => false
    case Claiming(t, _) => t == s
    case Done(_, answer) => answer == Some(Ok(s))
  }

  lemma InPlaySound(e: Settings, bytes: Bytes, start: int, steps: seq<Step>, st: State, s: SessionData)
    requires EngineRun(e, bytes, start, steps, st) && InPlay(st, s)
    ensures Sound(e, st.history, st.journal, s)
  {
    RunsKeepInv(e, bytes, start, steps, st);
    InPlayIsSound(e, st, s);
  }

  lemma InPlayIsSound(e: Settings, st: State, s: SessionData)
    requires AllSound(e, st) && InPlay(st, s)
    ensures Sound(e, st.history, st.journal, s)
  {
    if c :| c in st.calls && Carries(st.calls[c], s) { assert PcSound(e, st.history, st.journal, st.calls[c]); }
  }

  /** No copy anywhere carries `Consumed=true`, and neither response path ever accepted a response,
      unless `ConsumeOnce` of that id succeeded earlier in the run. */
  lemma Provenance(e: Settings, bytes: Bytes, start: int, steps: seq<Step>, st: State)
    requires EngineRun(e, bytes, start, steps, st)
    ensures forall s :: InPlay(st, s) && s.consumed ==> Won(st.history, s.id)
    ensures forall i :: 0 <= i < |st.journal| && st.journal[i].Accepted? ==>
              st.journal[i].stamp <= |st.history| && Won(st.history[..st.journal[i].stamp], st.journal[i].s.id)
  {
    RunsKeepInv(e, bytes, start, steps, st);
    forall s | InPlay(st, s) && s.consumed ensures Won(st.history, s.id) { InPlaySound(e, bytes, start, steps, st, s); }
    forall i | 0 <= i < |st.journal| && st.journal[i].Accepted?
      ensures st.journal[i].stamp <= |st.history| && Won(st.history[..st.journal[i].stamp], st.journal[i].s.id)
    {
      assert NoteSound(e, st.history, st.journal, st.journal[i]);
    }
  }

  /** The shape of every copy of a session, kept by every step, with what follows from it:
      a code means same-device and consumed, a used flag means a code, the lifetime is the positive
      configured one, and a redirect exists exactly when a code was minted. */
  lemma ShapeEverywhere(e: Settings, bytes: Bytes, start: int, steps: seq<Step>, st: State, s: SessionData)
    requires EngineRun(e, bytes, start, steps, st) && InPlay(st, s)
    ensures NewSession.Shape(e, s) && s.expiresAt - s.createdAt > 0
    ensures SameDeviceReturn.RedirectURI(s).Ok? <==> s.responseCode != []
    ensures s.responseCode != [] ==> MintedFor(st.journal, s.id, s.responseCode)
  {
    InPlaySound(e, bytes, start, steps, st, s);
  }

  /** If the blocks of the random stream are pairwise different, all tokens of a run are. */
  lemma TokensDistinct(e: Settings, bytes: Bytes, start: int, steps: seq<Step>, st: State)
    requires Reaches(e, bytes, start, steps, st) && DistinctBlocks(bytes)
    ensures Distinct(TokensOf(st.journal))
  {
    RunTokensFresh(e, bytes, start, steps, st);
    FreshDistinct(st.tape, TokensOf(st.journal));
  }

  /** No two sessions of a run share an id. */
  ghost predicate DistinctIDs(j: seq<Note>) {
    forall i, k :: 0 <= i < |j| && 0 <= k < |j| && j[i].Born? && j[k].Born? && j[i].s.id == j[k].s.id ==> i == k
  }

  lemma IDsDistinct(e: Settings, bytes: Bytes, start: int, steps: seq<Step>, st: State)
    requires Reaches(e, bytes, start, steps, st) && DistinctBlocks(bytes)
    ensures DistinctIDs(st.journal)
  {
    TokensDistinct(e, bytes, start, steps, st);
    var j := st.journal;
    forall i, k | 0 <= i < |j| && 0 <= k < |j| && j[i].Born? && j[k].Born? && j[i].s.id == j[k].s.id ensures i == k {
      OneOwner(j, i, k, j[i].s.id);
    }
  }

  /** With distinct ids, copies of one id agree on everything but the marks. */
  lemma SameOrigin(j: seq<Note>, s: SessionData, t: SessionData)
    requires BornAs(j, s) && BornAs(j, t) && DistinctIDs(j) && s.id == t.id
    ensures s.Core() == t.Core()
  {
    var i :| 0 <= i < |j| && j[i].Born? && j[i].s.Core() == s.Core();
    var k :| 0 <= k < |j| && j[k].Born? && j[k].s.Core() == t.Core();
    CoreFields(j[i].s, s);
    CoreFields(j[k].s, t);
  }

  /** No step of a run changes a session's identity, nonce, state, key, query, URIs or expiry: all
      copies in play of one id, and all that were ever saved, agree on them. Saving a new session
      therefore never overwrites another one. */
  lemma CoreNeverChanges(e: Settings, bytes: Bytes, start: int, steps: seq<Step>, st: State, s: SessionData,
                         t: SessionData)
    requires EngineRun(e, bytes, start, steps, st) && DistinctBlocks(bytes) && s.id == t.id
    requires InPlay(st, s) || Saved(s) in st.history
    requires InPlay(st, t) || Saved(t) in st.history
    ensures s.Core() == t.Core()
  {
    RunsKeepInv(e, bytes, start, steps, st);
    IDsDistinct(e, bytes, start, steps, st);
    KnownBorn(e, st, s);
    KnownBorn(e, st, t);
    SameOrigin(st.journal, s, t);
  }

  lemma KnownBorn(e: Settings, st: State, s: SessionData)
    requires Inv(e, st) && (InPlay(st, s) || Saved(s) in st.history)
    ensures BornAs(st.journal, s)
  {
    if InPlay(st, s) {
      InPlayIsSound(e, st, s);
    } else {
      var i :| 0 <= i < |st.history| && st.history[i] == Saved(s);
      assert BornAs(st.journal, st.history[i].s);
    }
  }

  /** What a presentation shares with the request it answers. An unsigned DCAPI request names
      neither client nor origins. */
  ghost predicate Answers(e: Settings, p: VPToken.Presentation, q: Request) {
    && p.nonce == q.nonce
    && (p.format == FORMAT_MDOC ==> e.lib.thumbprint(q.key) == Some(p.jwkThumbprint))
    && match q
       case RequestObject(clientID, responseURI, _, _, _, _, _, _, _, _, _, _) =>
         p.clientID == clientID && p.responseURI == responseURI && p.origin == []
       case DCAPIClaims(_, _, _, _, _, _, _, signed) =>
         && p.responseURI == []
         && (signed.Some? ==> p.clientID == signed.value.clientID && p.origin in signed.value.expectedOrigins)
  }

  /** Every presentation ever returned for a session carries the nonce, client id and response URI,
      or for DCAPI one of the origins, and for an mdoc the thumbprint of the key, that every request
      ever served for that id advertised: request objects, the signed DCAPI request that creation
      hands out or that is built again, and unsigned ones. */
  lemma Agreement(e: Settings, bytes: Bytes, start: int, steps: seq<Step>, st: State, i: nat, k: nat)
    requires EngineRun(e, bytes, start, steps, st) && DistinctBlocks(bytes)
    requires i < |st.journal| && k < |st.journal| && st.journal[i].Served? && st.journal[k].Accepted?
    requires st.journal[i].s.id == st.journal[k].s.id
    ensures forall p :: p in st.journal[k].presentations ==> Answers(e, p, st.journal[i].request)
  {
    RunsKeepInv(e, bytes, start, steps, st);
    IDsDistinct(e, bytes, start, steps, st);
    var served, accepted := st.journal[i], st.journal[k];
    assert NoteSound(e, st.history, st.journal, served) && NoteSound(e, st.history, st.journal, accepted);
    SameOrigin(st.journal, served.s, accepted.s);
    CoreFields(served.s, accepted.s);
    forall p | p in accepted.presentations ensures Answers(e, p, served.request) {
      BoundAnswers(e, served.s, served.at, served.request, accepted.s, accepted.origin, p);
    }
  }

  lemma BoundAnswers(e: Settings, s: SessionData, at: int, q: Request,
                     t: SessionData, origin: Bytes, p: VPToken.Presentation)
    requires LawfulKeys(e.lib) && s.Core() == t.Core() && Advertises(e, s, at, q)
    requires NewSession.Shape(e, t) && OriginFits(t, origin) && Response.BoundTo(e.lib, t, origin, p)
    ensures Answers(e, p, q)
  {
    CoreFields(s, t);
    var k := e.lib.parseKey(s.ephemeralKey).value;
    assert q.key == e.lib.publicOf(k);
    assert e.lib.thumbprint(e.lib.publicOf(k)).Some?;
  }

  /** A created DCAPI session has its signed request served in the same step. */
  lemma CreationServes(e: Settings, st: State, h: Handle, spec: NewSession.RequestSpec, key: Option<PrivateKey>)
    requires h !in st.copies && spec.flow == DCAPI
    requires NewSession.Create(e, spec, key, st.now, st.tape).1.Ok?
    ensures var created := NewSession.Create(e, spec, key, st.now, st.tape).1.value;
            var signed := RequestObject.SignedDCAPIRequest(e, created.session, st.now);
            && signed.Ok? && created.invocation == NewSession.ByBrowser(signed.value.token)
            && Take(e, st, OnEngine(Create(h, spec, key))).journal ==
               st.journal + [Born(created.session), Served(created.session, st.now, signed.value.request)]
  {
  }

  /** Every mdoc presentation ever returned gets a transcript: the DCAPI handover exactly when it
      came from `ProcessDCAPIResponse`. */
  lemma TranscriptsTotal(e: Settings, bytes: Bytes, start: int, steps: seq<Step>, st: State, k: nat)
    requires EngineRun(e, bytes, start, steps, st)
    requires k < |st.journal| && st.journal[k].Accepted?
    ensures forall p :: p in st.journal[k].presentations && p.format == FORMAT_MDOC ==>
              && Transcript.SessionTranscriptFor(p).Ok?
              && (Transcript.SessionTranscriptFor(p).value.OID4VPDCAPIHandover? <==> st.journal[k].browser)
  {
    RunsKeepInv(e, bytes, start, steps, st);
    var n := st.journal[k];
    assert NoteSound(e, st.history, st.journal, n);
    forall p | p in n.presentations && p.format == FORMAT_MDOC
      ensures Transcript.SessionTranscriptFor(p).Ok?
      ensures Transcript.SessionTranscriptFor(p).value.OID4VPDCAPIHandover? <==> n.browser
    {
      Transcript.TranscriptTotal(e, n.s, n.origin, p);
    }
  }

  /** A redeemed code was minted for the redeeming session, and for no other. */
  lemma CodesStayHome(e: Settings, bytes: Bytes, start: int, steps: seq<Step>, st: State, i: nat)
    requires EngineRun(e, bytes, start, steps, st) && DistinctBlocks(bytes)
    requires i < |st.journal| && st.journal[i].Redeemed?
    ensures MintedFor(st.journal, st.journal[i].s.id, st.journal[i].code)
    ensures forall id :: MintedFor(st.journal, id, st.journal[i].code) ==> id == st.journal[i].s.id
  {
    RunsKeepInv(e, bytes, start, steps, st);
    TokensDistinct(e, bytes, start, steps, st);
    assert NoteSound(e, st.history, st.journal, st.journal[i]);
    forall id | MintedFor(st.journal, id, st.journal[i].code) ensures id == st.journal[i].s.id {
      OneHome(st.journal, st.journal[i].s.id, id, st.journal[i].code);
    }
  }

  lemma OneHome(j: seq<Note>, id: Bytes, other: Bytes, code: Bytes)
    requires Distinct(TokensOf(j)) && MintedFor(j, id, code) && MintedFor(j, other, code) && code != []
    ensures id == other
  {
    var k :| 0 <= k < |j| && j[k].Accepted? && j[k].s.id == other && j[k].code == code;
    OneMinter(j, id, code, k);
  }

  lemma OneMinter(j: seq<Note>, id: Bytes, code: Bytes, k: nat)
    requires Distinct(TokensOf(j)) && MintedFor(j, id, code) && code != []
    requires k < |j| && j[k].Accepted? && j[k].code == code
    ensures j[k].s.id == id
  {
    var m :| 0 <= m < |j| && j[m].Accepted? && j[m].s.id == id && j[m].code == code;
    CodeToken(j[m]);
    CodeToken(j[k]);
    OneOwner(j, m, k, code);
  }

  lemma CodeToken(n: Note)
    requires n.Accepted? && n.code != []
    ensures n.code in NoteTokens(n)
  {
    assert NoteTokens(n)[0] == n.code;
  }

  /** In a run of the engine, consumed copies are saved only after a success. */
  lemma EngineSavesFollowWins(e: Settings, bytes: Bytes, start: int, steps: seq<Step>, st: State, id: Bytes)
    requires EngineRun(e, bytes, start, steps, st)
    ensures ConsumedSavesFollowWins(st.history, id)
  {
    RunsKeepInv(e, bytes, start, steps, st);
    forall i | 0 <= i < |st.history| && IsConsumedSave(st.history[i], id) ensures Won(st.history[..i], id) {
      assert st.history[i].Saved?;
    }
  }

  /** No returned save of `id` carried a copy that expires by `t`. */
  ghost predicate ReturnedSavesOutlive(rs: seq<Return>, id: Bytes, t: int) {
    forall i :: 0 <= i < |rs| && rs[i].op.OpSave? && rs[i].op.s.id == id ==> t < rs[i].op.s.expiresAt
  }

  /** The first caller was given the session, every other one the consumed error. */
  ghost predicate FirstIsGiven(answers: seq<Option<Result<SessionData>>>) {
    |answers| > 0 ==>
      && answers[0].Some? && answers[0].value.Ok?
      && forall k :: 0 < k < |answers| ==> answers[k] == Some(Err(Is(SessionConsumed)))
  }

  /** In every interleaving, whatever sessions are saved: with one returned save of `id` that carries
      `Consumed=false`, no expiry yet, and consumed copies saved only after a success, of the callers of
      `ConsumeOnce(id)` that returned since that save exactly the first was given the session, and
      each other one the consumed error, also after saves of consumed copies in between. */
  lemma RacersOneWinner(e: Settings, bytes: Bytes, start: int, steps: seq<Step>, st: State, id: Bytes)
    requires Reaches(e, bytes, start, steps, st) && ConsumedSavesFollowWins(st.history, id)
    requires ReturnedFreshSaves(st.returned, id) == 1 && ReturnedSavesOutlive(st.returned, id, st.now)
    ensures FirstIsGiven(ReturnedOutcomes(st.returned, id))
    ensures ReturnedWins(st.returned, id) == (if |ReturnedOutcomes(st.returned, id)| > 0 then 1 else 0)
  {
    RunsAreLegal(e, bytes, start, steps, st);
    ReturnsMatchHistory(e, bytes, start, steps, st);
    var n := |st.returned|;
    var h := st.history[..n];
    LegalPrefix(st.history, n);
    PrefixDiscipline(st.history, n, id, st.now);
    ReturnedMatchPrefix(st.returned, Pending(st), st.history);
    ReturnedOutcomesMatch(st.returned, h, id);
    ReturnedWinsCount(st.returned, h, id);
    forall i | 0 <= i < n && h[i].Saved? && h[i].s.id == id ensures st.now < h[i].s.expiresAt {
      assert Matches(st.returned[i], h[i]) && st.returned[i].op.OpSave?;
    }
    OneWinner(h, id, st.now);
  }

  lemma ReturnedMatchPrefix(rs: seq<Return>, pending: seq<Return>, h: seq<Event>)
    requires AllMatch(rs + pending, h)
    ensures AllMatch(rs, h[..|rs|])
  {
    forall i | 0 <= i < |rs| ensures Matches(rs[i], h[i]) { assert (rs + pending)[i] == rs[i]; }
  }

  lemma PrefixDiscipline(h: seq<Event>, n: nat, id: Bytes, t: int)
    requires n <= |h| && ConsumedSavesFollowWins(h, id) && PastBefore(h, t)
    ensures ConsumedSavesFollowWins(h[..n], id) && PastBefore(h[..n], t)
  {
    forall i | 0 <= i < n && IsConsumedSave(h[..n][i], id) ensures Won(h[..n][..i], id) {
      assert IsConsumedSave(h[i], id) && h[..n][..i] == h[..i];
    }
  }

  /** For sessions of the engine the discipline on consumed copies holds by itself. */
  lemma ExactlyOneWinner(e: Settings, bytes: Bytes, start: int, steps: seq<Step>, st: State, id: Bytes)
    requires EngineRun(e, bytes, start, steps, st)
    requires ReturnedFreshSaves(st.returned, id) == 1 && ReturnedSavesOutlive(st.returned, id, st.now)
    ensures FirstIsGiven(ReturnedOutcomes(st.returned, id))
    ensures ReturnedWins(st.returned, id) == (if |ReturnedOutcomes(st.returned, id)| > 0 then 1 else 0)
  {
    EngineSavesFollowWins(e, bytes, start, steps, st, id);
    RacersOneWinner(e, bytes, start, steps, st, id);
  }

  /** In every run, with any overlap: a copy that a load returned is served exactly when the last write
      of the id before that load left an unserved copy for which the other gates hold, and redeems a
      code exactly when that write left the code unused. */
  lemma SecondUseInRuns(e: Settings, bytes: Bytes, start: int, steps: seq<Step>, st: State, k: nat, now: int,
                        code: Bytes)
    requires Reaches(e, bytes, start, steps, st)
    requires k < |st.history| && st.history[k].Loaded? && st.history[k].out.Ok?
    ensures var Loaded(id, at, out) := st.history[k];
            && (RequestObject.Serve(e, out.value, now).1.Ok? <==>
                exists i: nat :: RecordRuns.LeftUnserved(e, st.history[..k], id, at, now, i))
            && (SameDeviceReturn.Redeem(out.value, code).1.None? <==>
                exists i: nat :: RecordRuns.LeftRedeemable(st.history[..k], id, at, code, i))
  {
    RunsAreLegal(e, bytes, start, steps, st);
    LegalPrefix(st.history, k);
    var Loaded(id, at, out) := st.history[k];
    RecordRuns.ServedAgainIff(e, st.history[..k], id, at, now);
    RecordRuns.RedeemedAgainIff(st.history[..k], id, at, code);
  }

  /** In every run: after a success, while no copy with `Consumed=false` of `id` was saved again,
      every later `ConsumeOnce(id)` that took effect failed. */
  lemma StickyInRuns(e: Settings, bytes: Bytes, start: int, steps: seq<Step>, st: State, id: Bytes, won: nat, k: nat)
    requires Reaches(e, bytes, start, steps, st)
    requires won < k < |st.history| && IsWin(st.history[won], id)
    requires forall j :: won < j < |st.history| ==> !IsFreshSave(st.history[j], id)
    requires st.history[k].Tried? && st.history[k].id == id
    ensures id in Ref(st.history[..k])
    ensures st.history[k].out ==
            Err(Is(if st.history[k].at < Ref(st.history[..k])[id].expiresAt then SessionConsumed else SessionNotFound))
  {
    RunsAreLegal(e, bytes, start, steps, st);
    Sticky(st.history, id, won, k);
  }

  /** For every reachable, unexpired, consumed copy of a request_uri session and every request served
      for its id, a wallet that answers from that request alone, with a vp_token of good entries for
      its query within the cap, is accepted, and its vp_token comes back flattened. */
  lemma HonestWalletInRuns(e: Settings, bytes: Bytes, start: int, steps: seq<Step>, st: State, w: Response.Wallet,
                           s: SessionData, i: nat, vpToken: map<Bytes, VPValue>)
    requires EngineRun(e, bytes, start, steps, st) && DistinctBlocks(bytes) && Response.LawfulWallet(e.lib, w)
    requires i < |st.journal| && st.journal[i].Served? && st.journal[i].s.id == s.id
    requires InPlay(st, s) && s.flow != DCAPI && s.consumed && st.now < s.expiresAt
    requires Response.GoodToken(st.journal[i].request.query, vpToken)
    requires |Response.FormBody(Response.WalletJWE(w, st.journal[i].request, vpToken))| <= e.cfg.maxResponseBody
    requires s.flow == SameDevice ==> st.tape.pos + TOKEN_BYTES <= |st.tape.bytes|
    ensures var q := st.journal[i].request;
            && q.RequestObject?
            && var r := Response.Respond(e, s, st.now, Response.FormBody(Response.WalletJWE(w, q, vpToken)), st.tape).2;
               r.Ok? && VPToken.FlattensTo(s, vpToken, Response.ThumbprintOf(e.lib, s), [], r.value.presentations)
  {
    ServedForCopy(e, bytes, start, steps, st, s, i);
    var served := st.journal[i];
    RequestObject.ClaimsFromCore(e, s, s, served.at);
    Response.HonestWalletSucceeds(e, w, s, served.request, served.at, vpToken, st.now, st.tape);
  }

  /** The same through the browser, at an origin the copy expects, for every signed or unsigned request
      served for the id; a signed one names these origins. */
  lemma HonestBrowserInRuns(e: Settings, bytes: Bytes, start: int, steps: seq<Step>, st: State, w: Response.Wallet,
                            s: SessionData, i: nat, vpToken: map<Bytes, VPValue>, origin: Bytes)
    requires EngineRun(e, bytes, start, steps, st) && DistinctBlocks(bytes) && Response.LawfulWallet(e.lib, w)
    requires i < |st.journal| && st.journal[i].Served? && st.journal[i].s.id == s.id
    requires InPlay(st, s) && s.flow == DCAPI && s.consumed && st.now < s.expiresAt && origin in s.expectedOrigins
    requires Response.GoodToken(st.journal[i].request.query, vpToken)
    requires |w.wrap(Response.WalletJWE(w, st.journal[i].request, vpToken))| <= e.cfg.maxResponseBody
    ensures var q := st.journal[i].request;
            && q.DCAPIClaims? && (q.signed.Some? ==> q.signed.value.expectedOrigins == s.expectedOrigins)
            && var r := Response.RespondDCAPI(e, s, st.now, origin, w.wrap(Response.WalletJWE(w, q, vpToken)));
               r.Ok? && VPToken.FlattensTo(s, vpToken, Response.ThumbprintOf(e.lib, s), origin, r.value)
  {
    ServedForCopy(e, bytes, start, steps, st, s, i);
    var served := st.journal[i];
    var signed := RequestObject.ClaimsForDCAPI(e, s, true, served.at) == Ok(served.request);
    RequestObject.DCAPIClaimsFromCore(e, s, s, signed, served.at);
    Response.HonestBrowserSucceeds(e, w, s, served.request, signed, served.at, vpToken, origin, st.now);
  }

  /** A request served for an id advertises every copy of it in play. */
  lemma ServedForCopy(e: Settings, bytes: Bytes, start: int, steps: seq<Step>, st: State, s: SessionData, i: nat)
    requires EngineRun(e, bytes, start, steps, st) && DistinctBlocks(bytes)
    requires i < |st.journal| && st.journal[i].Served? && st.journal[i].s.id == s.id && InPlay(st, s)
    ensures Advertises(e, s, st.journal[i].at, st.journal[i].request)
  {
    RunsKeepInv(e, bytes, start, steps, st);
    IDsDistinct(e, bytes, start, steps, st);
    InPlaySound(e, bytes, start, steps, st, s);
    var served := st.journal[i];
    assert NoteSound(e, st.history, st.journal, served);
    SameOrigin(st.journal, served.s, s);
    AdvertisesCore(e, served.s, s, served.at, served.request);
  }

  lemma AdvertisesCore(e: Settings, s: SessionData, t: SessionData, at: int, q: Request)
    requires s.Core() == t.Core() && Advertises(e, s, at, q)
    ensures Advertises(e, t, at, q)
  {
    CoreFields(s, t);
    RequestObject.ClaimsFromCore(e, s, t, at);
    RequestObject.DCAPIClaimsFromCore(e, s, t, true, at);
    RequestObject.DCAPIClaimsFromCore(e, s, t, false, at);
  }

  /** For every request served for an id that carries transaction_data, and every copy of it in play: the
      hashes of the strings of that request are accepted in any order, and nothing else is. */
  lemma EchoInRuns(e: Settings, bytes: Bytes, start: int, steps: seq<Step>, st: State, s: SessionData, i: nat,
                   echoed: seq<Bytes>, alg: Bytes)
    requires EngineRun(e, bytes, start, steps, st) && DistinctBlocks(bytes)
    requires i < |st.journal| && st.journal[i].Served? && st.journal[i].s.id == s.id && InPlay(st, s)
    requires st.journal[i].request.transactionData.Some? && e.lib.allowsAlg(alg)
    ensures TransactionData.EchoVerdict(e, s.transactionData, echoed, alg).None? <==>
            TransactionData.IsEcho(e.lib, alg, st.journal[i].request.transactionData.value, echoed)
  {
    ServedForCopy(e, bytes, start, steps, st, s, i);
    var served := st.journal[i];
    RequestObject.ClaimsFromCore(e, s, s, served.at);
    RequestObject.DCAPIClaimsFromCore(e, s, s, true, served.at);
    RequestObject.DCAPIClaimsFromCore(e, s, s, false, served.at);
    TransactionData.HonestEchoIff(e, s, served.request, echoed, alg);
  }
}
