/** Single use on one record: engine calls one after the other on one session, directly or as
    Load-call-Save transactions that do not overlap. */
module RecordRuns {
  import opened GoStrings
  import opened Errors
  import opened Session
  import opened Engine
  import opened MemStore
  import opened History
  import RequestObject
  import Response
  import SameDeviceReturn
  import WalletMetadata

  /** An engine call on the record. */
  datatype Action =
    | Serve
    | Respond(body: Bytes)
    | Redeem(code: Bytes)
    | Absorb(raw: Bytes)

  /** The store's consumption of the record, or an engine call. */
  datatype Call = Consume | Act(action: Action)

  /** A call at a time of the clock. */
  datatype Timed = Timed(call: Call, now: int)

  /** The record, the random stream, and how often each single-use call succeeded. */
  datatype Record = Record(s: SessionData, tape: Tape, won: nat, served: nat, minted: nat, redeemed: nat)

  ghost function ActOn(e: Settings, r: Record, action: Action, now: int): Record {
    match action
    case Serve =>
      var (s', out) := RequestObject.Serve(e, r.s, now);
      r.(s := s', served := r.served + if out.Ok? then 1 else 0)
    case Respond(body) =>
      var (s', tape', out) := Response.Respond(e, r.s, now, body, r.tape);
      r.(s := s', tape := tape', minted := r.minted + if out.Ok? && out.value.code != [] then 1 else 0)
    case Redeem(code) =>
      var (s', err) := SameDeviceReturn.Redeem(r.s, code);
      r.(s := s', redeemed := r.redeemed + if err.None? then 1 else 0)
    case Absorb(raw) => r.(s := WalletMetadata.Absorb(e.lib, r.s, raw).0)
  }

  ghost function Step(e: Settings, r: Record, t: Timed): Record {
    match t.call
    case Consume =>
      if t.now < r.s.expiresAt && !r.s.consumed then r.(s := r.s.(consumed := true), won := r.won + 1) else r
    case Act(action) => ActOn(e, r, action, t.now)
  }

  ghost function Run(e: Settings, r: Record, calls: seq<Timed>): Record {
    if |calls| == 0 then r else Step(e, Run(e, r, calls[..|calls| - 1]), calls[|calls| - 1])
  }

  function One(b: bool): nat {
    if b then 1 else 0
  }

  predicate Redeemable(s: SessionData) {
    s.responseCode != [] && !s.responseCodeUsed
  }

  /** One call spends a use only when it takes the mark that holds it. */
  lemma ActSpends(e: Settings, r: Record, action: Action, now: int)
    ensures var r' := ActOn(e, r, action, now);
            && r'.s.Core() == r.s.Core()
            && r'.s.consumed == r.s.consumed && r'.won == r.won
            && r'.served - r.served == One(r'.s.requestObjectServed) - One(r.s.requestObjectServed)
            && r'.redeemed + One(Redeemable(r'.s)) - r'.minted <= r.redeemed + One(Redeemable(r.s)) - r.minted
  {
    match action
    case Serve => RequestObject.ServeSucceedsIff(e, r.s, now);
    case Respond(body) =>
      if Response.Respond(e, r.s, now, body, r.tape).2.Ok? {
        Response.RespondLeaves(e, r.s, now, body, r.tape);
      } else {
        Response.RespondFailureKeeps(e, r.s, now, body, r.tape);
      }
    case Redeem(code) => SameDeviceReturn.RedeemIff(r.s, code);
    case Absorb(raw) =>
  }

  lemma StepSpends(e: Settings, r: Record, t: Timed)
    ensures var r' := Step(e, r, t);
            && r'.s.Core() == r.s.Core()
            && r'.won - r.won == One(r'.s.consumed) - One(r.s.consumed)
            && r'.served - r.served == One(r'.s.requestObjectServed) - One(r.s.requestObjectServed)
            && r'.redeemed + One(Redeemable(r'.s)) - r'.minted <= r.redeemed + One(Redeemable(r.s)) - r.minted
  {
    if t.call.Act? { ActSpends(e, r, t.call.action, t.now); }
  }

  /** Along any run of calls on one record, it is consumed at most once and its request object is
      served at most once, and not at all if that was done before; successful redemptions never
      exceed successful mints, plus one for a code that was still unused at the start. */
  lemma {:induction false} SingleUse(e: Settings, r: Record, calls: seq<Timed>)
    requires r.won == r.served == r.minted == r.redeemed == 0
    ensures var last := Run(e, r, calls);
            && last.won == One(last.s.consumed) - One(r.s.consumed) <= 1
            && last.served == One(last.s.requestObjectServed) - One(r.s.requestObjectServed) <= 1
            && last.redeemed + One(Redeemable(last.s)) <= last.minted + One(Redeemable(r.s))
            && last.s.Core() == r.s.Core()
  {
    if |calls| == 0 {
    } else {
      SingleUse(e, r, calls[..|calls| - 1]);
      StepSpends(e, Run(e, r, calls[..|calls| - 1]), calls[|calls| - 1]);
    }
  }

  /** Any number of wrong codes changes nothing, so an unused right code still redeems. */
  lemma {:induction false} WrongCodesHarmless(e: Settings, r: Record, calls: seq<Timed>)
    requires forall i :: 0 <= i < |calls| ==>
               calls[i].call.Act? && calls[i].call.action.Redeem? && calls[i].call.action.code != r.s.responseCode
    ensures Run(e, r, calls) == r
    ensures Redeemable(r.s) ==> SameDeviceReturn.Redeem(Run(e, r, calls).s, r.s.responseCode).1 == None
  {
    if |calls| == 0 {
    } else {
      WrongCodesHarmless(e, r, calls[..|calls| - 1]);
    }
  }

  /** A mint makes the code redeemable, whatever happened to an earlier one. */
  lemma MintResets(e: Settings, r: Record, body: Bytes, now: int)
    requires r.s.flow == SameDevice && Response.Respond(e, r.s, now, body, r.tape).2.Ok?
    ensures var r' := ActOn(e, r, Respond(body), now);
            && Redeemable(r'.s) && r'.minted == r.minted + 1
            && r'.s.responseCode == Response.Respond(e, r.s, now, body, r.tape).2.value.code
  {
    Response.RespondLeaves(e, r.s, now, body, r.tape);
  }

  // ---- The whole life of a record.

  lemma {:induction false} RunAppend(e: Settings, r: Record, a: seq<Timed>, b: seq<Timed>)
    ensures Run(e, r, a + b) == Run(e, Run(e, r, a), b)
    decreases |b|
  {
    if |b| == 0 {
      assert a + b == a;
    } else {
      RunAppend(e, r, a, b[..|b| - 1]);
      assert (a + b)[..|a + b| - 1] == a + b[..|b| - 1];
    }
  }

  lemma RunOne(e: Settings, r: Record, t: Timed)
    ensures Run(e, r, [t]) == Step(e, r, t)
  {
    assert [t][..0] == [];
    assert Run(e, r, []) == r;
  }

  /** A run of four calls, by the records in between. */
  lemma RunFour(e: Settings, r: Record, a: Timed, b: Timed, c: Timed, d: Timed, mid: Record, late: Record)
    requires mid == Step(e, Step(e, r, a), b) && late == Step(e, mid, c)
    ensures Run(e, r, [a, b, c, d]) == Step(e, late, d)
  {
    RunOne(e, r, a);
    assert [a] + [b] == [a, b] && [a, b] + [c] == [a, b, c] && [a, b, c] + [d] == [a, b, c, d];
    RunAppend(e, r, [a], [b]);
    RunOne(e, Run(e, r, [a]), b);
    RunAppend(e, r, [a, b], [c]);
    RunOne(e, mid, c);
    RunAppend(e, r, [a, b, c], [d]);
    RunOne(e, late, d);
  }

  /** The code a same-device response mints from this tape. */
  function MintedFrom(tape: Tape): Bytes
    requires tape.pos + TOKEN_BYTES <= |tape.bytes|
  {
    NextToken(tape).1.value
  }

  /** A same-device session as `NewSession` creates it, served, consumed, answered by an honest wallet and
      redeemed with its minted code: each single-use call succeeds once, and all marks end up set. */
  lemma HonestLifecycle(e: Settings, s: SessionData, tape: Tape, w: Response.Wallet, vpToken: map<Bytes, VPValue>,
                        served: int, consumed: int, answered: int, redeemed: int)
    requires LawfulKeys(e.lib) && Response.LawfulWallet(e.lib, w)
    requires s.flow == SameDevice && !s.requestObjectServed && !s.consumed
    requires RequestObject.Servable(e, s, served) && consumed < s.expiresAt && answered < s.expiresAt
    requires Response.GoodToken(s.query, vpToken)
    requires |HonestBody(e, s, served, w, vpToken)| <= e.cfg.maxResponseBody
    requires tape.pos + TOKEN_BYTES <= |tape.bytes|
    ensures var code := MintedFrom(tape);
            var calls := [Timed(Act(Serve), served), Timed(Consume, consumed),
                          Timed(Act(Respond(HonestBody(e, s, served, w, vpToken))), answered),
                          Timed(Act(Redeem(code)), redeemed)];
            var last := Run(e, Record(s, tape, 0, 0, 0, 0), calls);
            && last.won == last.served == last.minted == last.redeemed == 1
            && last.s == s.(requestObjectServed := true, consumed := true,
                            responseCode := code, responseCodeUsed := true)
  {
    var r0, body, code := Record(s, tape, 0, 0, 0, 0), HonestBody(e, s, served, w, vpToken), MintedFrom(tape);
    var s2 := s.(requestObjectServed := true, consumed := true);
    var r2 := Record(s2, tape, 1, 1, 0, 0);
    var r3 := Record(s2.(responseCode := code, responseCodeUsed := false), NextToken(tape).0, 1, 1, 1, 0);
    ServeThenConsume(e, r0, served, consumed);
    HonestAnswer(e, s, r2, w, vpToken, served, answered);
    TokenShape(tape);
    RedeemMinted(e, r3, redeemed);
    RunFour(e, r0, Timed(Act(Serve), served), Timed(Consume, consumed), Timed(Act(Respond(body)), answered),
            Timed(Act(Redeem(code)), redeemed), r2, r3);
  }

  lemma ServeThenConsume(e: Settings, r: Record, served: int, consumed: int)
    requires RequestObject.Servable(e, r.s, served) && !r.s.requestObjectServed
    requires !r.s.consumed && consumed < r.s.expiresAt
    ensures Step(e, Step(e, r, Timed(Act(Serve), served)), Timed(Consume, consumed)) ==
            r.(s := r.s.(requestObjectServed := true, consumed := true), served := r.served + 1, won := r.won + 1)
  {
    RequestObject.ServeSucceedsIff(e, r.s, served);
  }

  lemma RedeemMinted(e: Settings, r: Record, now: int)
    requires Redeemable(r.s)
    ensures Step(e, r, Timed(Act(Redeem(r.s.responseCode)), now)) ==
            r.(s := r.s.(responseCodeUsed := true), redeemed := r.redeemed + 1)
  {
    SameDeviceReturn.RedeemIff(r.s, r.s.responseCode);
  }

  lemma HonestAnswer(e: Settings, s: SessionData, r: Record, w: Response.Wallet, vpToken: map<Bytes, VPValue>,
                     served: int, answered: int)
    requires LawfulKeys(e.lib) && Response.LawfulWallet(e.lib, w)
    requires s.flow == SameDevice && r.s == s.(requestObjectServed := true, consumed := true)
    requires RequestObject.Servable(e, s, served) && answered < s.expiresAt
    requires Response.GoodToken(s.query, vpToken)
    requires |HonestBody(e, s, served, w, vpToken)| <= e.cfg.maxResponseBody
    requires r.tape.pos + TOKEN_BYTES <= |r.tape.bytes|
    ensures ActOn(e, r, Respond(HonestBody(e, s, served, w, vpToken)), answered) ==
            r.(s := r.s.(responseCode := MintedFrom(r.tape), responseCodeUsed := false),
               tape := NextToken(r.tape).0, minted := r.minted + 1)
  {
    HonestClaims(e, s, r.s, served);
    var q := RequestObject.RequestClaims(e, s, served).value;
    Response.HonestWalletSucceeds(e, w, r.s, q, served, vpToken, answered, r.tape);
    AnswerMints(e, r, HonestBody(e, s, served, w, vpToken), answered);
  }

  lemma HonestClaims(e: Settings, s: SessionData, s': SessionData, served: int)
    requires s' == s.(requestObjectServed := true, consumed := true) && RequestObject.Servable(e, s, served)
    ensures RequestObject.RequestClaims(e, s, served).Ok?
    ensures RequestObject.RequestClaims(e, s', served) == RequestObject.RequestClaims(e, s, served)
    ensures RequestObject.RequestClaims(e, s, served).value.query == s.query
  {
    RequestObject.ServeSucceedsIff(e, s.(requestObjectServed := false), served);
    assert s'.Core() == s.Core();
    RequestObject.ClaimsFromCore(e, s, s', served);
  }

  lemma AnswerMints(e: Settings, r: Record, body: Bytes, answered: int)
    requires r.s.flow == SameDevice && Response.Respond(e, r.s, answered, body, r.tape).2.Ok?
    requires r.tape.pos + TOKEN_BYTES <= |r.tape.bytes|
    ensures ActOn(e, r, Respond(body), answered) ==
            r.(s := r.s.(responseCode := MintedFrom(r.tape), responseCodeUsed := false),
               tape := NextToken(r.tape).0, minted := r.minted + 1)
  {
    Response.RespondLeaves(e, r.s, answered, body, r.tape);
  }

  /** What an honest wallet posts in answer to the request object served at `served`. */
  function HonestBody(e: Settings, s: SessionData, served: int, w: Response.Wallet, vpToken: map<Bytes, VPValue>): Bytes
    requires RequestObject.Servable(e, s, served)
  {
    Response.FormBody(Response.WalletJWE(w, RequestObject.RequestClaims(e, s, served).value, vpToken))
  }

  // ---- Transactions on the store.

  /** Read the record with `Load` or, as the response endpoint does, with `ConsumeOnce`; make one
      engine call on what was read; save it. */
  datatype Transaction = Transaction(consume: bool, read: int, action: Action, now: int)

  function ReadIn(m: Snapshots, id: Bytes, tx: Transaction): (Snapshots, Result<SessionData>) {
    if tx.consume then ConsumeFrom(m, id, tx.read) else LoadFrom(m, id, tx.read)
  }

  /** A read that fails ends the transaction. */
  ghost function Transact(e: Settings, m: Snapshots, id: Bytes, r: Record, tx: Transaction): (Snapshots, Record) {
    var (m', out) := ReadIn(m, id, tx);
    match out
    case Err(_) => (m', r)
    case Ok(s) =>
      var r' := ActOn(e, r.(s := s, won := r.won + if tx.consume then 1 else 0), tx.action, tx.now);
      (SaveIn(m', r'.s).0, r')
  }

  ghost function TransactAll(e: Settings, m: Snapshots, id: Bytes, r: Record, txs: seq<Transaction>)
    : (Snapshots, Record)
  {
    if |txs| == 0 then (m, r)
    else
      var (m', r') := TransactAll(e, m, id, r, txs[..|txs| - 1]);
      Transact(e, m', id, r', txs[|txs| - 1])
  }

  /** The calls a transaction comes to make on the record. */
  function CallsOf(m: Snapshots, id: Bytes, tx: Transaction): seq<Timed> {
    if ReadIn(m, id, tx).1.Err? then []
    else (if tx.consume then [Timed(Consume, tx.read)] else []) + [Timed(Act(tx.action), tx.now)]
  }

  ghost function CallsOfAll(e: Settings, m: Snapshots, id: Bytes, r: Record, txs: seq<Transaction>): seq<Timed> {
    if |txs| == 0 then []
    else
      var init := txs[..|txs| - 1];
      CallsOfAll(e, m, id, r, init) + CallsOf(TransactAll(e, m, id, r, init).0, id, txs[|txs| - 1])
  }

  /** The store holds the record, unless it has deleted it. */
  predicate Holds(m: Snapshots, id: Bytes, s: SessionData) {
    s.id == id && (id in m ==> m[id] == s)
  }

  lemma TransactIsRun(e: Settings, m: Snapshots, id: Bytes, r: Record, tx: Transaction)
    requires id != [] && Holds(m, id, r.s)
    ensures var (m', r') := Transact(e, m, id, r, tx);
            && r' == Run(e, r, CallsOf(m, id, tx))
            && Holds(m', id, r'.s) && m' - {id} == m - {id} && r'.s.Core() == r.s.Core()
            && (id in m && tx.read < r.s.expiresAt ==> id in m')
  {
    var calls := CallsOf(m, id, tx);
    if calls == [] {
    } else {
      var act := Timed(Act(tx.action), tx.now);
      var mid := if tx.consume then Step(e, r, Timed(Consume, tx.read)) else r;
      if tx.consume {
        RunOne(e, r, Timed(Consume, tx.read));
        RunAppend(e, r, [Timed(Consume, tx.read)], [act]);
      } else {
        assert calls == [act];
      }
      RunOne(e, mid, act);
      ActSpends(e, mid, tx.action, tx.now);
      assert mid.s.Core() == r.s.Core();
      CoreKeeps(ActOn(e, mid, tx.action, tx.now).s, r.s);
    }
  }

  /** Non-overlapping transactions are a run on the record, so the single-use guarantees carry over
      to the store; no other record changes, and the record stays unless it is read after its expiry. */
  lemma {:induction false} TransactionsAreRuns(e: Settings, m: Snapshots, id: Bytes, r: Record, txs: seq<Transaction>)
    requires id != [] && Holds(m, id, r.s)
    ensures var (m', r') := TransactAll(e, m, id, r, txs);
            && r' == Run(e, r, CallsOfAll(e, m, id, r, txs))
            && Holds(m', id, r'.s) && m' - {id} == m - {id} && r'.s.Core() == r.s.Core()
            && (id in m && (forall i :: 0 <= i < |txs| ==> txs[i].read < r.s.expiresAt) ==> id in m')
  {
    if |txs| == 0 {
    } else {
      var init, tx := txs[..|txs| - 1], txs[|txs| - 1];
      TransactionsAreRuns(e, m, id, r, init);
      var (m1, r1) := TransactAll(e, m, id, r, init);
      CoreKeeps(r1.s, r.s);
      TransactIsRun(e, m1, id, r1, tx);
      RunAppend(e, r, CallsOfAll(e, m, id, r, init), CallsOf(m1, id, tx));
    }
  }

  /** So, whatever transactions follow one another on a stored record: one consumption and one served
      request object at most, and no more redemptions than mints and codes unused at the start. */
  lemma TransactionsSingleUse(e: Settings, m: Snapshots, id: Bytes, s: SessionData, tape: Tape, txs: seq<Transaction>)
    requires id != [] && Holds(m, id, s)
    ensures var last := TransactAll(e, m, id, Record(s, tape, 0, 0, 0, 0), txs).1;
            && last.won == One(last.s.consumed) - One(s.consumed) <= 1
            && last.served == One(last.s.requestObjectServed) - One(s.requestObjectServed) <= 1
            && last.redeemed + One(Redeemable(last.s)) <= last.minted + One(Redeemable(s))
  {
    var r := Record(s, tape, 0, 0, 0, 0);
    TransactionsAreRuns(e, m, id, r, txs);
    SingleUse(e, r, CallsOfAll(e, m, id, r, txs));
  }

  lemma CoreKeeps(s: SessionData, t: SessionData)
    requires s.Core() == t.Core()
    ensures s.id == t.id && s.expiresAt == t.expiresAt
  {
    assert s.Core().id == s.id && t.Core().id == t.id;
    assert s.Core().expiresAt == s.expiresAt && t.Core().expiresAt == t.expiresAt;
  }

  // ---- Overlapping transactions: what any legal history of the store says.

  /** The last write of `id` left a copy that can be loaded at `at` and served at `now`. */
  ghost predicate LeftUnserved(e: Settings, h: seq<Event>, id: Bytes, at: int, now: int, i: nat) {
    && LastWrite(h, id, i)
    && var s := Written(h[i], id);
       at < s.expiresAt && !s.requestObjectServed && RequestObject.Servable(e, s, now)
  }

  /** The last write of `id` left a served copy that can be loaded at `at`, before its expiry. */
  ghost predicate LeftServed(h: seq<Event>, id: Bytes, at: int, now: int, i: nat) {
    && LastWrite(h, id, i)
    && var s := Written(h[i], id);
       at < s.expiresAt && now < s.expiresAt && s.requestObjectServed && s.flow != DCAPI
  }

  /** Exactly when the next load of `id` leads to a served request object, in every history, with
      whatever overlapping transactions: the last write of `id` left an unserved copy for which the
      other gates hold. Exactly when it is refused as already served: that write left a served one.
      After a first serve, a second is therefore refused exactly as long as the last write is
      a copy that carries the mark. */
  lemma ServedAgainIff(e: Settings, h: seq<Event>, id: Bytes, at: int, now: int)
    ensures var read := RefLoad(Ref(h), id, at);
            && ((read.Ok? && RequestObject.Serve(e, read.value, now).1.Ok?) <==>
                exists i: nat :: LeftUnserved(e, h, id, at, now, i))
            && ((read.Ok? && RequestObject.Serve(e, read.value, now).1 == Err(Is(RequestURIConsumed))) <==>
                exists i: nat :: LeftServed(h, id, at, now, i))
  {
    RefIsLastWrite(h, id);
    var read := RefLoad(Ref(h), id, at);
    if read.Ok? {
      RequestObject.ServeSucceedsIff(e, read.value, now);
      var i: nat :| LastWrite(h, id, i);
      assert Written(h[i], id) == read.value;
      if RequestObject.Serve(e, read.value, now).1.Ok? { assert LeftUnserved(e, h, id, at, now, i); }
      if RequestObject.Serve(e, read.value, now).1 == Err(Is(RequestURIConsumed)) {
        assert LeftServed(h, id, at, now, i);
      }
    }
  }

  /** The last write of `id` left `code` minted and unused. */
  ghost predicate LeftRedeemable(h: seq<Event>, id: Bytes, at: int, code: Bytes, i: nat) {
    && LastWrite(h, id, i)
    && var s := Written(h[i], id);
       at < s.expiresAt && Redeemable(s) && s.responseCode == code
  }

  ghost predicate LeftRedeemed(h: seq<Event>, id: Bytes, at: int, i: nat) {
    && LastWrite(h, id, i)
    && var s := Written(h[i], id);
       at < s.expiresAt && s.responseCode != [] && s.responseCodeUsed
  }

  /** Likewise a code redeems on the next loaded copy exactly when the last write of the id left that
      code unused, and is refused as already used exactly when it left a used one. */
  lemma RedeemedAgainIff(h: seq<Event>, id: Bytes, at: int, code: Bytes)
    ensures var read := RefLoad(Ref(h), id, at);
            && ((read.Ok? && SameDeviceReturn.Redeem(read.value, code).1.None?) <==>
                exists i: nat :: LeftRedeemable(h, id, at, code, i))
            && ((read.Ok? && SameDeviceReturn.Redeem(read.value, code).1 == Some(Is(ResponseCodeConsumed))) <==>
                exists i: nat :: LeftRedeemed(h, id, at, i))
  {
    RefIsLastWrite(h, id);
    var read := RefLoad(Ref(h), id, at);
    if read.Ok? {
      var i: nat :| LastWrite(h, id, i);
      assert Written(h[i], id) == read.value;
      if SameDeviceReturn.Redeem(read.value, code).1.None? { assert LeftRedeemable(h, id, at, code, i); }
      if SameDeviceReturn.Redeem(read.value, code).1 == Some(Is(ResponseCodeConsumed)) {
        assert LeftRedeemed(h, id, at, i);
      }
    }
  }

  /** The caller discipline: once a served copy was saved, and while every copy saved after it carries
      the mark, no later load leads to a served request object; a consumption between keeps the mark. */
  lemma ServedStays(e: Settings, h: seq<Event>, id: Bytes, saved: nat, at: int, now: int)
    requires Legal(h) && saved < |h| && h[saved].Saved? && h[saved].s.id == id && h[saved].s.requestObjectServed
    requires forall j :: saved < j < |h| && h[j].Saved? && h[j].s.id == id ==> h[j].s.requestObjectServed
    ensures var read := RefLoad(Ref(h), id, at);
            read.Ok? ==> RequestObject.Serve(e, read.value, now).1.Err?
  {
    MarkStays(h, id, saved, |h|);
    assert h[..|h|] == h;
  }

  lemma {:induction false} MarkStays(h: seq<Event>, id: Bytes, saved: nat, k: nat)
    requires Legal(h) && saved < k <= |h| && h[saved].Saved? && h[saved].s.id == id && h[saved].s.requestObjectServed
    requires forall j :: saved < j < |h| && h[j].Saved? && h[j].s.id == id ==> h[j].s.requestObjectServed
    ensures id in Ref(h[..k]) && Ref(h[..k])[id].requestObjectServed
  {
    LegalPrefix(h, k - 1);
    assert h[..k][..k - 1] == h[..k - 1];
    if k - 1 == saved {
    } else {
      MarkStays(h, id, saved, k - 1);
    }
  }

  /** Overlapping transactions escape single use: two handlers that both load before either saves
      are both served, and the store ends up as if one of them had been. */
  lemma OverlapServesTwice(e: Settings, m: Snapshots, id: Bytes, now: int)
    requires id != [] && id in m && m[id].id == id && RequestObject.Serve(e, m[id], now).1.Ok?
    ensures var first, second := LoadFrom(m, id, now).1, LoadFrom(m, id, now).1;
            && first.Ok? && second.Ok?
            && RequestObject.Serve(e, first.value, now).1.Ok? && RequestObject.Serve(e, second.value, now).1.Ok?
            && var once := SaveIn(m, RequestObject.Serve(e, first.value, now).0).0;
               SaveIn(once, RequestObject.Serve(e, second.value, now).0).0 == once
  {
    RequestObject.ServeSucceedsIff(e, m[id], now);
    var s := m[id].(requestObjectServed := true);
    assert m[id := s][id := s] == m[id := s];
  }
}
