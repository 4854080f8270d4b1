# A Dafny model of the OpenID4VP verifier's session protocol

The repository is the verifier side of OpenID4VP 1.0: it creates sessions, serves signed requests,
keeps session snapshots in a store, accepts encrypted wallet responses once, and hands the browser
back with a single-use response code. This project models that protocol and proves what holds of it
in every run.

- `Runs`, `Protocol`, `Freshness`, `Guarantees`: the whole system as small steps. Any number of store
  calls are in flight at once; taking the mutex, looking up, reading the clock, deleting, writing and
  unlocking are separate steps. Handlers hold independent copies, make engine calls on them and save
  them back whenever they like, while the clock advances; they may also build sessions by hand. What
  is claimed of the store holds in all these runs, what is claimed of the engine in those whose
  sessions all come from `NewSession`.
- `MemStore`, `History`: the store object, the functions its methods are proved to compute, the
  reference store that never deletes, and what every legal history of store calls guarantees.
- `RecordRuns`: calls one after the other on one record, directly or as transactions, and what
  overlapping transactions do instead.
- `Session`, `Engine`, `NewSession`, `RequestObject`, `Response`, `VPToken`, `Transcript`,
  `SameDeviceReturn`, `TransactionData`, `WalletMetadata`: the engine calls. Code that changes an
  object or loops is a method proved against a function; the properties are lemmas about it.
- `NewSessionGates`, `ResponseGates`: for creation and for both response paths, exactly which gate refuses
  which input with which error, stated on the inputs.
- `GoStrings`, `Base64url`, `FormEncoding`: byte strings, unpadded base64url (section 5 of RFC 4648),
  percent-encoding (section 2.1 of RFC 3986) and form queries.
- `Errors`, `ErrorResponse`, `EngineErrors`: error trees and the wallet-boundary reply.

A Go string or byte slice is a sequence of bytes (`Bytes`). `time.Time` is an integer. The libraries
the engine calls are the fields of `Engine.Library`, functions that return `None` for an error; the
laws they need are the predicates `LawfulURLs`, `LawfulKeys`, `LawfulWallet`, `LawfulCodec` and
`InjectiveDigest`, required only where they are used. Encryption is symbolic: opening with the
matching key undoes sealing. The random source is a finite tape of bytes that fails when it runs out.

## Where the code and its promises part

- The consumed marker is documented as sticky (memstore.go:70-74, session.go:85-90), but `Save`
  overwrites whatever it finds (memstore.go:40). `History.AttemptIff` says exactly when the next
  `ConsumeOnce` succeeds: the last write of the id is a save with `Consumed=false`, not yet expired.
  `History.StaleSaveRevives` is a run with two successes; `History.Sticky` is the documented claim
  under the discipline that no such save follows a success.
- A universal-link base that ends in a bare `?` or `#` passes the constructor's check, because query
  and fragment are then empty (engine.go:225), and the invocation it yields does not read back as
  the three parameters. `NewSession.UniversalLinkRoundTripIff` gives the exact condition and
  `NewSession.TrailingMarkAccepted` a concrete base.
- A return URI with a fragment is accepted (newsession.go:165-177), and the response code then lands
  in the fragment (samedevice.go:24-28); one with an own `response_code` is accepted and hides the
  minted code. `SameDeviceReturn.RedirectRoundTripIff` and `SameDeviceReturn.RedirectCodeIff` give the
  exact conditions for every return URI, `SameDeviceReturn.FragmentAccepted` and
  `SameDeviceReturn.OwnCodeAccepted` concrete ones.
- Request object and response code are documented as single-use (requestobject.go:35-38,
  samedevice.go:31-36), but the mark is on a copy. Transactions that do not overlap keep single use
  (`RecordRuns.TransactionsSingleUse`); overlapping ones escape it (`RecordRuns.OverlapServesTwice`).
  In every history `RecordRuns.ServedAgainIff` and `RecordRuns.RedeemedAgainIff` say exactly when the
  next loaded copy is served or redeemed again: when the last write of its id left it unmarked.
- Lazy eviction is invisible under a clock that does not go back (`MemStore.EvictionInvisible`).
  `MemStore.EvictionVisibleIff` says exactly which calls show it under any clock, and
  `MemStore.EvictionVisibleOnRewind` is one.

## Model

| member | source | states |
|---|---|---|
| MemStore.MemStore.Save | memstore.go:30-42 | a nil session or an empty id is refused; otherwise exactly that id's snapshot is replaced, whatever it was |
| MemStore.MemStore.Load | memstore.go:47-68 | the returned object is new and equals the stored snapshot; an expired record is deleted and reported as not found |
| MemStore.MemStore.ConsumeOnce | memstore.go:75-92 | one unconsumed, unexpired snapshot is marked consumed in the store and handed out as a new object; all other outcomes with their errors |
| MemStore.CopiesAreIndependent | storetest/storetest.go:75-94 | changing a saved or a loaded object never changes the store's contents |
| MemStore.ConsumeAgrees | memstore.go:54-92 | one call on stores that differ only in expired records gives the same answer, and they still differ only so |
| MemStore.EvictionInvisible | memstore.go:54-68 | over every sequence of calls under a monotone clock, the store answers as a plain map that never deletes and filters on read |
| MemStore.EvictionVisibleIff | memstore.go:54-68 | under any clock the answers differ from the never-deleting map exactly when a read of an id before its expiry follows one after its expiry, with no save of it between |
| MemStore.EvictionVisibleOnRewind | memstore.go:63-66 | with a clock that goes back the two differ |
| History.CountingBound | memstore.go:30-92 | in every legal history, successful consumptions of an id never exceed its saves with Consumed=false |
| History.RefIsLastWrite | memstore.go:40 | the reference store holds exactly what the last save or consumption of each id wrote |
| History.LoadGivesLastWrite | memstore.go:47-68 | a load gives a copy exactly when the last write of the id wrote it and it has not expired, and not found otherwise |
| History.AttemptIff | memstore.go:75-92 | the next ConsumeOnce gives the last written copy, marked, exactly when that write is a save with Consumed=false that has not expired; the consumed error exactly for an unexpired consumed copy; not found otherwise |
| History.Sticky | session.go:85-90 | after a success and while no copy with Consumed=false is saved, every later call gets the consumed error before the stored expiry and not found after it |
| History.StaleSaveRevives | memstore.go:70-74 | without that discipline: load, consume, save the loaded copy, and a second ConsumeOnce succeeds |
| History.OneWinner | storetest/storetest.go:176-214 | with one save with Consumed=false and no expiry: the first call wins, every other one gets the consumed error, later saves of consumed copies included |
| Runs.StoreStepKeeps | memstore.go:36-92 | lock, lookup, clock reading, delete, write and unlock each keep mutual exclusion and agreement with the never-deleting reference |
| Runs.RunsAreLegal | memstore.go:30-92 | in every interleaving of any number of callers, whatever sessions they save, the calls that took effect form a legal history |
| Runs.SerialIsAtomic | memstore.go:47-92 | an uninterrupted sequence of small steps has the effect and the answer of the store's functions |
| Runs.ReturnsMatchHistory | memstore.go:47-92 | callers get back exactly the answers of the history, each once and in order; at most one is on its way |
| Runs.RunCountingBound | memstore.go:70-92 | in every interleaving, hand-built sessions included, callers given the session never outnumber the saves with Consumed=false |
| Session.Session.constructor | memstore.go:59-62 | a decoded snapshot is a new record with the same value |
| Protocol.StepKeepsInv | session.go:80-90 | every store and engine step keeps the invariant: shape, origin, provenance of the consumed flag and of the code, for every copy anywhere |
| Guarantees.Provenance | response.go:76-78 | no copy anywhere is consumed, and neither response path accepted anything for an id, unless ConsumeOnce of it succeeded earlier in the run |
| Guarantees.ShapeEverywhere | newsession.go:115-144 | every copy in every run has its flow's shape, a positive lifetime, and a redirect exactly when a code was minted for it |
| Guarantees.CoreNeverChanges | session.go:31-58 | all copies of an id, and all ever saved, agree on identity, nonce, state, key, query, URIs and expiry; a new session never overwrites another |
| Guarantees.Agreement | requestobject.go:94-112 | every presentation ever returned carries the nonce, client id, response URI or origin, and for mdoc the key thumbprint, that every request served for that id advertised: request objects, the signed DCAPI request that creation hands out or that is built again, and unsigned ones as far as they name these |
| Guarantees.CreationServes | newsession.go:199-210 | creating a DCAPI session hands out its signed request, which counts as served |
| Guarantees.TranscriptsTotal | transcript.go:28-50 | every mdoc presentation ever returned has a transcript, the DCAPI handover exactly when it came from ProcessDCAPIResponse |
| Guarantees.TokensDistinct | engine.go:233-239 | if the 16-byte blocks of the random stream are pairwise different, all ids, nonces, states and codes of a run are |
| Guarantees.IDsDistinct | newsession.go:47-50 | no two sessions of a run share an id |
| Guarantees.CodesStayHome | samedevice.go:31-36 | a redeemed code was minted for the redeeming session and for no other |
| Guarantees.EngineSavesFollowWins | response.go:66-68 | when sessions enter only through NewSession, consumed copies are saved only after a success |
| Guarantees.RacersOneWinner | storetest/storetest.go:176-214 | in every interleaving, whatever sessions are saved: with one returned save with Consumed=false, no expiry, and consumed copies saved only after a success, the first returned ConsumeOnce caller was given the session and each other one the consumed error |
| Guarantees.ExactlyOneWinner | session.go:85-90 | for sessions of the engine the same without the hypothesis on consumed copies |
| Guarantees.SecondUseInRuns | requestobject.go:50-52 | in every run a loaded copy is served, or redeems a code, exactly when the last write of the id before the load left it unserved, or left that code unused |
| Guarantees.StickyInRuns | session.go:85-90 | the conditional sticky claim in every interleaving, with the exact error |
| Guarantees.HonestWalletInRuns | response.go:69-152 | for every reachable consumed unexpired request_uri copy and every request served for its id, a wallet answering from that request alone is accepted and gets its vp_token flattened |
| Guarantees.HonestBrowserInRuns | dcapi.go:140-216 | the same for every reachable DCAPI copy, every signed or unsigned request served for its id and every origin it expects; the result carries that origin |
| Guarantees.EchoInRuns | transactiondata.go:72-106 | for every request served for an id and every copy of it in play, exactly the reorderings of the hashes of that request's transaction_data strings are accepted |
| Freshness.RunTokensFresh | engine.go:233-239 | in every run the tokens encode whole blocks of the stream with strictly increasing positions, in the order in which they were drawn |
| Freshness.NextIsFresh | engine.go:233-239 | a drawn token encodes the whole block at which the reader stands, and no block read before if blocks differ |
| RecordRuns.SingleUse | requestobject.go:35-38 | along any run on one record, consumption included, it is consumed and its request object served at most once, and redemptions never exceed mints plus a code unused at the start |
| RecordRuns.WrongCodesHarmless | samedevice.go:48-50 | any number of wrong codes changes nothing, and an unused right code still redeems |
| RecordRuns.MintResets | response.go:147-149 | a mint makes its code redeemable, whatever happened to an earlier one |
| RecordRuns.HonestLifecycle | response.go:66-68 | a created same-device record served, consumed, answered by an honest wallet and redeemed: each call succeeds once and all marks end up set |
| RecordRuns.TransactionsAreRuns | response.go:66-68 | non-overlapping transactions, started by Load or by ConsumeOnce, are a run on the record, touch no other record, and keep it stored unless it is read after its expiry |
| RecordRuns.TransactionsSingleUse | samedevice.go:35-36 | so along them single use of consumption, request object and response codes holds |
| RecordRuns.ServedAgainIff | requestobject.go:50-52 | in every history the next load leads to a served request object exactly when the last write of the id left an unserved copy and the other gates hold, and to the refusal exactly when it left a served one |
| RecordRuns.RedeemedAgainIff | samedevice.go:45-50 | in every history the next loaded copy redeems a code exactly when the last write of the id left that code unused, and refuses it as used exactly when it left a used one |
| RecordRuns.ServedStays | requestobject.go:35-38 | once a served copy was saved, and while only served copies are saved after it, no later load is served |
| RecordRuns.OverlapServesTwice | requestobject.go:35-38 | two overlapping transactions are both served and leave the store as one would |
| Engine.New | engine.go:102-211 | construction succeeds exactly when every check holds (key, chain, DNS name, prefix, SAN, signing key, policy, parsed base URLs), fails with the first complaint, and yields the prefixed client id, a positive TTL and cap |
| Engine.ConfigFaultIff | engine.go:102-189 | there is no complaint exactly when every check holds, and which sentinel the first complaint carries |
| Engine.TrimSlash | engine.go:191 | one trailing slash at most is removed, and no other byte |
| Engine.CheckAlgorithms | engine.go:140-172 | the loops over the algorithm lists find the first value the policy refuses |
| Engine.RandReader.Token | engine.go:233-239 | reads one block and encodes it; a short source is used up and fails |
| Engine.TokenShape | engine.go:31-34 | a token is 22 letters of the base64url alphabet |
| NewSession.NewSession | newsession.go:43-92 | the method returns and leaves of the random stream what `Create` says, for every specification |
| NewSessionGates.CreateSucceedsIff | newsession.go:43-145 | a session is created exactly when every gate on the specification, its parsed URLs, the random stream, the key and for DCAPI the signer is passed |
| NewSessionGates.CreateComplains | newsession.go:43-145 | a refused creation gives the error of the first gate that fails, and draws nothing when the specification is refused |
| NewSessionGates.CreateCopies | newsession.go:69-92 | a created session carries the specification, the generated key, the next three tokens and the time, and its invocation belongs to it |
| NewSession.Invoke | newsession.go:199-231 | the invocation built step by step is the sorted, escaped query on both URIs, or the signed DCAPI member |
| NewSession.CreateShape | newsession.go:95-145 | a created session has the shape of its flow, fresh marks, a future expiry, and the next three tokens of the stream |
| NewSession.CreateOneSentinel | newsession.go:95-145 | every creation error mentions at most one sentinel |
| NewSession.InvocationRoundTrip | newsession.go:209-229 | the scheme URI and the QR payload read back as exactly client_id, request_uri and request_uri_method=get, and the universal link carries the same query |
| NewSession.UniversalLinkRoundTripIff | newsession.go:222-225 | the universal link reads back exactly when its accepted base has neither a query mark nor a fragment mark |
| NewSession.TrailingMarkAccepted | engine.go:217-229 | a base ending in a bare query mark is accepted and its link does not read back |
| NewSession.RequestURIsDistinct | newsession.go:215 | under the default builder different ids have different request URIs |
| RequestObject.RequestObjectJWT | requestobject.go:39-70 | the method returns and leaves in the session what `Serve` says |
| RequestObject.ServeSucceedsIff | requestobject.go:39-70 | serving succeeds exactly on an unserved unexpired request_uri session with registration, key and signer, and gives the signed claims; a failure changes nothing |
| RequestObject.ServeComplains | requestobject.go:39-70 | a refused request object gives the error of the first gate that fails |
| RequestObject.SignedDCAPIIff | dcapi.go:26-56 | exactly when the signed DCAPI request is built, that its token signs its claims, and which error it gives otherwise |
| RequestObject.UnsignedDCAPIIff | dcapi.go:62-76 | exactly when the unsigned one is built, without signer and expiry, and which error it gives otherwise |
| RequestObject.ClaimsFromCore | requestobject.go:74-140 | every advertised member is the session's own, and depends only on its fixed part, the engine's client id and the time |
| RequestObject.DCAPIClaimsFromCore | dcapi.go:84-132 | the same for DCAPI requests; client id, origins and times only in signed ones |
| RequestObject.TransactionDataStrings | transactiondata.go:16-22 | every transaction_data string decodes to its entry, in order |
| Response.ProcessResponse | response.go:69-152 | returns and leaves in session and random source what `Respond` says, for every session and body |
| Response.RespondSucceedsIff | response.go:69-152 | success exactly when every gate holds |
| Response.RespondOnGates | response.go:132-151 | then the whole vp_token is returned, in order, and a code is minted exactly for same-device sessions |
| ResponseGates.RespondComplains | response.go:69-152 | a refused response gives the error of the first gate that fails, in the source's order: a wallet's own error with its clipped code and description, a bad vp_token with its least bad key; the session and, but for a failed mint, the random source stay |
| ResponseGates.RefusalIsAnswered | response.go:89-92 | a wallet that declines with a code, naming the session, is answered as that wallet error and at the boundary with its registered code; a foreign state is a state mismatch |
| Response.RespondFailureKeeps | response.go:69-152 | every failure leaves the session unchanged, a minted code and its used flag included, and its error mentions at most one sentinel |
| Response.RespondBound | response.go:224-244 | every returned presentation is bound to the session and to its own key |
| Response.HonestWalletSucceeds | response.go:82-151 | a body built from the served request alone is accepted and comes back flattened |
| Response.ProcessDCAPIResponse | dcapi.go:140-216 | returns what `RespondDCAPI` says and leaves the session alone |
| Response.RespondDCAPISucceedsIff | dcapi.go:140-216 | success exactly when every gate holds, the origin among the expected ones included |
| Response.RespondDCAPIOnGates | dcapi.go:203-215 | then the whole vp_token is returned, in order, under the checked origin |
| ResponseGates.RespondDCAPIComplains | dcapi.go:140-216 | a refused DCAPI response gives the error of the first gate that fails, in the source's order |
| Response.HonestBrowserSucceeds | dcapi.go:140-216 | a body built from a signed or unsigned DCAPI request alone, passed on at an expected origin, is accepted and comes back flattened |
| Response.RespondDCAPIBound | dcapi.go:212-214 | every returned presentation carries the checked origin |
| VPToken.PresentationsFromVPToken | response.go:207-253 | whatever order the map's keys are drawn in, the result is one function of the map |
| VPToken.Formats | response.go:208-211 | the format table keeps the last credential of each id |
| VPToken.FlattenSucceedsIff | response.go:218-239 | success exactly when every key is in the query and has a non-empty array of acceptable entries |
| VPToken.FlattenConcatenates | response.go:217-251 | on success the output is, over keys in strict byte order, each key's entries in order and nothing else, each with the last credential's format, its own bytes or for mdoc the decoded ones, and the binding values |
| VPToken.FlattensToUnique | response.go:217-251 | that fixes the output completely |
| VPToken.MdocComesBack | response.go:238-246 | an mdoc entry that encodes some bytes is presented, in its place, as exactly these |
| VPToken.FormatOfLast | response.go:208-211 | the format of an id is that of the last credential with it |
| VPToken.FlattenFault | response.go:219-239 | on failure the error is that of the least offending key at its first bad entry |
| VPToken.FlattenBound | response.go:228-244 | every presentation carries nonce, client id and response URI, and the thumbprint exactly for mdoc |
| Transcript.TranscriptTotal | transcript.go:28-50 | a presentation bound to an engine session has the handover of its flow with that session's parameters |
| Transcript.TranscriptIff | transcript.go:28-50 | a transcript exists exactly for mdoc with all parameters of its variant, and which one it is |
| SameDeviceReturn.ConsumeResponseCode | samedevice.go:37-52 | the method returns and leaves in the session what `Redeem` says |
| SameDeviceReturn.RedeemIff | samedevice.go:37-52 | redemption succeeds exactly for the minted unused code and sets the mark; a refusal changes nothing and says no code, used, or another one |
| SameDeviceReturn.RedirectReads | samedevice.go:14-28 | when a session has a redirect, which error it gives otherwise, and that it is the return URI followed by the code as one parameter, read back in order |
| SameDeviceReturn.RedirectIffMinted | samedevice.go:14-23 | an engine session has a redirect exactly when a code was minted |
| SameDeviceReturn.RedirectRoundTripIff | samedevice.go:24-28 | the redirect's query is the original's, in order, followed by the code, exactly when the return URI has no fragment mark |
| SameDeviceReturn.RedirectCodeIff | samedevice.go:24-28 | for every return URI, the browser's response_code is the minted one exactly when the URI has no fragment mark and no own one, or its own first one is that code |
| SameDeviceReturn.FragmentAccepted | newsession.go:165-177 | a return URI with a fragment is accepted and its redirect has no query |
| SameDeviceReturn.OwnCodeAccepted | newsession.go:165-177 | a return URI with an own response_code is accepted and the browser's is that one |
| TransactionData.TransactionDataHashes | transactiondata.go:42-60 | the encoded digest of each encoded entry in order, or an error for an algorithm the policy refuses |
| TransactionData.ValidateTransactionDataEcho | transactiondata.go:72-106 | the method gives the verdict; present entries are accepted exactly when both lists are equal as multisets |
| TransactionData.HonestEchoIff | transactiondata.go:42-106 | for a request that describes the session and carries transaction_data, exactly the reorderings of the digests of its strings are accepted |
| TransactionData.NoEchoIff | transactiondata.go:72-84 | for one that carries none, exactly the empty echo on a session without entries |
| TransactionData.EchoComplains | transactiondata.go:72-98 | the present, absent, mismatch matrix of errors |
| TransactionData.SameCounts | transactiondata.go:95-104 | the counting loops decide multiset equality |
| TransactionData.EchoOrderIrrelevant | transactiondata.go:62-66 | the wallet may reorder |
| TransactionData.EchoDeterminesEntries | transactiondata.go:42-60 | with an injective digest an accepted echo determines the multiset of entries |
| WalletMetadata.AbsorbWalletMetadata | walletmetadata.go:20-41 | the method returns and leaves in the session what `Absorb` says |
| WalletMetadata.AbsorbIff | walletmetadata.go:20-41 | a document is kept exactly within 1 and 65536 bytes of JSON; only the metadata field changes |
| Base64url.DecodeEncode | engine.go:238 | decoding undoes encoding for every byte sequence |
| Base64url.EncodeShape | engine.go:238 | the output stays in the alphabet and has as many letters as groups of six bits, rounded up |
| Base64url.EncodeInjective | transactiondata.go:19 | different byte sequences have different encodings |
| Base64url.DecodeIsLenient | response.go:239 | decoding is not injective: spare bits and line breaks are ignored |
| FormEncoding.UnescapeEscape | samedevice.go:28 | query unescaping undoes escaping for every byte sequence |
| FormEncoding.TokenNeedsNoEscape | samedevice.go:28 | escaping a token is the identity |
| FormEncoding.ParseWritten | response.go:85-88 | a written form reads back as exactly its pairs, in order, without error |
| FormEncoding.FormBadIff | response.go:85-88 | a form is refused exactly when one of its pieces has a semicolon or a broken escape |
| FormEncoding.Encode | newsession.go:221 | the form is written in strict byte order of its keys |
| ErrorResponse.Respond | errorresponse.go:29-44 | the scan with early return gives the reply of the first matching row, a wallet error its own |
| ErrorResponse.TableComplete | errorresponse.go:56-98 | every sentinel has exactly one row |
| ErrorResponse.OrderIndependent | errorresponse.go:53-55 | for an error with one sentinel the reply is the same for every order of the table |
| ErrorResponse.SentinelDecides | errorresponse.go:39-43 | however deeply it is wrapped, the sentinel alone decides the reply |
| ErrorResponse.ReplyByClass | errorresponse.go:56-98 | 404 for a session that is gone, 500 server_error for the verifier's own failures, 400 for all else, and which codes differ from invalid_request |
| ErrorResponse.ForeignReply | errorresponse.go:29-44 | an error without a sentinel is an internal one |
| ErrorResponse.WalletReply | errorresponse.go:103-111 | a wallet error is answered with 400 and the code it sent if that is one of six, however it was clipped |
| ErrorResponse.TwoSentinelsDependOnOrder | errorresponse.go:53-55 | an error with two sentinels would depend on the order |
| ErrorResponse.ClipKeepsCode | errorresponse.go:103-111 | capping a wallet code at 256 bytes never changes the code echoed |
| EngineErrors.ReturnedOneSentinel | errorresponse.go:53-55 | every error the constructor, a call of the engine or a call of the store returns mentions at most one sentinel |
| EngineErrors.ReplyOrderIndependent | errorresponse.go:53-55 | so no reply to such an error depends on the order of the table |

## Left out

- Cryptography: signatures, key agreement, key generation and hashes are symbolic functions with the laws named above.
- JSON text: snapshots go through a codec with a round-trip law, payloads arrive decoded; marshalling failures and trailing bytes are not modelled.
- `url.Parse` beyond where it cuts query and fragment, and X.509 beyond the list of SAN names.
- A cap that newer Go releases put on the number of query parameters.
- Certificates beyond the leaf's SAN names and public key; nil entries elsewhere in the chain.
- Store and engine inject a clock each; the model gives both the same one, except that in transactions and histories the time of the read and that of the engine call are independent.
- The members of a request that are constants or configuration, and the layout of the ephemeral JWK.
- Each engine call reads the clock once; the second reading inside request building is the same instant.
- Foreign errors carry no engine sentinel and no text; of message texts only the quoted, clipped identifiers and what tells faults apart are kept.
- Timing of constant-time comparisons, data races on one shared session object, cancellation, HTTP transport.
- Liveness: no claim that a caller ever gets the mutex.
