/** Every error the engine and the store return mentions at most one sentinel, so the wallet's
    reply to it never depends on the order of the error table. */
module EngineErrors {
  import opened GoStrings
  import opened Errors
  import opened Session
  import opened Engine
  import ErrorResponse
  import MemStore
  import NewSession
  import RequestObject
  import Response
  import SameDeviceReturn
  import TransactionData
  import Transcript
  import VPToken
  import WalletMetadata

  predicate SomeError<T>(r: Result<T>, err: Error) {
    r == Err(err)
  }

  ghost predicate ReturnedByNew(err: Error) {
    exists cfg, lib :: ConfigFault(cfg, lib) == Some(err)
  }

  ghost predicate ReturnedByCreate(e: Settings, now: int, tape: Tape, err: Error) {
    exists spec, key :: SomeError(NewSession.Create(e, spec, key, now, tape).1, err)
  }

  ghost predicate ReturnedByRequest(e: Settings, s: SessionData, now: int, err: Error) {
    || SomeError(RequestObject.Serve(e, s, now).1, err)
    || SomeError(RequestObject.SignedDCAPIRequest(e, s, now), err)
    || SomeError(RequestObject.UnsignedDCAPIRequest(e, s), err)
  }

  ghost predicate ReturnedByResponse(e: Settings, s: SessionData, now: int, tape: Tape, err: Error) {
    || (exists body :: SomeError(Response.Respond(e, s, now, body, tape).2, err))
    || (exists origin, data :: SomeError(Response.RespondDCAPI(e, s, now, origin, data), err))
  }

  ghost predicate ReturnedByCheck(e: Settings, s: SessionData, now: int, err: Error) {
    || SomeError(SameDeviceReturn.RedirectURI(s), err)
    || (exists code :: SameDeviceReturn.Redeem(s, code).1 == Some(err))
    || (exists raw :: WalletMetadata.Absorb(e.lib, s, raw).1 == Some(err))
    || (exists echoed, alg :: TransactionData.EchoVerdict(e, s.transactionData, echoed, alg) == Some(err))
    || (exists p :: SomeError(Transcript.SessionTranscriptFor(p), err))
    || (exists m, id :: SomeError(MemStore.ConsumeFrom(m, id, now).1, err))
    || err == Is(SessionInvalid)
  }

  /** `err` is what one of the calls of the engine or the store returns on some input. */
  ghost predicate Returned(e: Settings, s: SessionData, now: int, tape: Tape, err: Error) {
    || ReturnedByNew(err) || ReturnedByCreate(e, now, tape, err) || ReturnedByRequest(e, s, now, err)
    || ReturnedByResponse(e, s, now, tape, err) || ReturnedByCheck(e, s, now, err)
  }

  lemma NewErrors(err: Error)
    requires ReturnedByNew(err)
    ensures OneSentinel(err)
  {
    var cfg, lib :| ConfigFault(cfg, lib) == Some(err);
    ConfigFaultIff(cfg, lib);
  }

  lemma CreateErrors(e: Settings, now: int, tape: Tape, err: Error)
    requires ReturnedByCreate(e, now, tape, err)
    ensures OneSentinel(err)
  {
    var spec, key :| SomeError(NewSession.Create(e, spec, key, now, tape).1, err);
    NewSession.CreateOneSentinel(e, spec, key, now, tape);
  }

  lemma RequestErrors(e: Settings, s: SessionData, now: int, err: Error)
    requires ReturnedByRequest(e, s, now, err)
    ensures OneSentinel(err)
  {
  }

  lemma ResponseErrors(e: Settings, s: SessionData, now: int, tape: Tape, err: Error)
    requires ReturnedByResponse(e, s, now, tape, err)
    ensures OneSentinel(err)
  {
    if body :| SomeError(Response.Respond(e, s, now, body, tape).2, err) {
      Response.RespondFailureKeeps(e, s, now, body, tape);
    } else {
      var origin, data :| SomeError(Response.RespondDCAPI(e, s, now, origin, data), err);
      Response.RespondDCAPIOneSentinel(e, s, now, origin, data);
    }
  }

  lemma CheckErrors(e: Settings, s: SessionData, now: int, err: Error)
    requires ReturnedByCheck(e, s, now, err)
    ensures OneSentinel(err)
  {
  }

  /** At most one sentinel in whatever a call returns. */
  lemma ReturnedOneSentinel(e: Settings, s: SessionData, now: int, tape: Tape, err: Error)
    requires Returned(e, s, now, tape, err)
    ensures OneSentinel(err)
  {
    if ReturnedByNew(err) { NewErrors(err); }
    else if ReturnedByCreate(e, now, tape, err) { CreateErrors(e, now, tape, err); }
    else if ReturnedByRequest(e, s, now, err) { RequestErrors(e, s, now, err); }
    else if ReturnedByResponse(e, s, now, tape, err) { ResponseErrors(e, s, now, tape, err); }
    else { CheckErrors(e, s, now, err); }
  }

  /** The wallet's reply to anything a call returns is the same for every order of the table. */
  lemma ReplyOrderIndependent(e: Settings, s: SessionData, now: int, tape: Tape, err: Error,
                              table: seq<ErrorResponse.Row>)
    requires Returned(e, s, now, tape, err)
    requires ErrorResponse.Reordered(table, ErrorResponse.ERROR_TABLE)
    ensures ErrorResponse.ReplyTo(table, err) == ErrorResponse.ReplyTo(ErrorResponse.ERROR_TABLE, err)
  {
    ReturnedOneSentinel(e, s, now, tape, err);
    ErrorResponse.TableKeyed();
    ErrorResponse.OrderIndependent(table, ErrorResponse.ERROR_TABLE, err);
  }
}
