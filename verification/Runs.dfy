/** The session protocol as a small-step system: any number of store calls in flight, each with
    its own lock, read, write and unlock steps, handlers with independent copies of sessions,
    engine calls on those copies, sessions built by hand, and an advancing clock. */
module Runs {
  import opened GoStrings
  import opened Errors
  import opened Session
  import opened Engine
  import opened MemStore
  import opened History
  import NewSession
  import RequestObject
  import Response
  import SameDeviceReturn
  import VPToken
  import WalletMetadata

  type Caller = nat
  type Handle = nat

  /** A store call with its argument; `Save` has already made its snapshot. */
  datatype Op = OpSave(s: SessionData) | OpLoad(id: Bytes) | OpConsume(id: Bytes)

  /** How far a store call has come. From `Locked` to `Done` it holds the mutex. */
  datatype Pc =
    | Called(op: Op)
    | Locked(op: Op)
    | Looked(op: Op, found: Option<SessionData>)
    | Stale(op: Op)
    | Claiming(s: SessionData, at: int)
    | Done(op: Op, answer: Option<Result<SessionData>>)

  /** A store call that returned to its caller, with what it gave: nothing for a `Save`. */
  datatype Return = Return(op: Op, answer: Option<Result<SessionData>>)

  /** An engine call that succeeded; `browser` tells the DCAPI path, `stamp` is the number of store events before it. */
  datatype Note =
    | Born(s: SessionData)
    | Served(s: SessionData, at: int, request: Request)
    | Accepted(s: SessionData, stamp: nat, browser: bool, origin: Bytes, presentations: seq<VPToken.Presentation>,
               code: Bytes)
    | Redeemed(s: SessionData, code: Bytes)

  datatype State = State(
    now: int,
    holder: Option<Caller>,
    store: Snapshots,
    calls: map<Caller, Pc>,
    copies: map<Handle, SessionData>,
    tape: Tape,
    history: seq<Event>,
    returned: seq<Return>,
    journal: seq<Note>)

  function Init(bytes: Bytes, now: int): State {
    State(now, None, map[], map[], map[], MakeTape(bytes, 0), [], [], [])
  }

  datatype StoreStep =
    | BeginSave(c: Caller, h: Handle)
    | BeginLoad(c: Caller, id: Bytes)
    | BeginConsume(c: Caller, id: Bytes)
    | Lock(c: Caller)
    | Look(c: Caller)
    | Check(c: Caller)
    | Delete(c: Caller)
    | Claim(c: Caller)
    | Write(c: Caller)
    | Unlock(c: Caller, h: Handle)

  datatype EngineStep =
    | Create(h: Handle, spec: NewSession.RequestSpec, key: Option<PrivateKey>)
    | Serve(h: Handle)
    | ServeBrowser(h: Handle)
    | ServeUnsigned(h: Handle)
    | Respond(h: Handle, body: Bytes)
    | RespondBrowser(h: Handle, origin: Bytes, data: Bytes)
    | Redeem(h: Handle, code: Bytes)
    | Absorb(h: Handle, raw: Bytes)

  /** `Adopt` is a handler that builds a session by hand: the store takes any. */
  datatype Step =
    | Tick(d: nat)
    | Adopt(h: Handle, s: SessionData)
    | OnStore(store: StoreStep)
    | OnEngine(engine: EngineStep)

  /** A `Save` without an id returns before it takes the mutex, so it is no step. */
  predicate StoreEnabled(st: State, step: StoreStep) {
    match step
    case BeginSave(c, h) => c !in st.calls && h in st.copies && st.copies[h].id != []
    case BeginLoad(c, _) => c !in st.calls
    case BeginConsume(c, _) => c !in st.calls
    case Lock(c) => c in st.calls && st.calls[c].Called? && st.holder == None
    case Look(c) => c in st.calls && st.calls[c].Locked? && !st.calls[c].op.OpSave?
    case Check(c) => c in st.calls && st.calls[c].Looked?
    case Delete(c) => c in st.calls && st.calls[c].Stale?
    case Claim(c) => c in st.calls && st.calls[c].Claiming?
    case Write(c) => c in st.calls && st.calls[c].Locked? && st.calls[c].op.OpSave?
    case Unlock(c, h) => c in st.calls && st.calls[c].Done? && h !in st.copies
  }

  function IdOf(op: Op): Bytes {
    if op.OpSave? then op.s.id else op.id
  }

  /** A read decided at the time of the clock reading. */
  function Answered(op: Op, at: int, out: Result<SessionData>): Event {
    if op.OpConsume? then Tried(IdOf(op), at, out) else Loaded(IdOf(op), at, out)
  }

  function TakeStore(st: State, step: StoreStep): State
    requires StoreEnabled(st, step)
  {
    match step
    case BeginSave(c, h) => st.(calls := st.calls[c := Called(OpSave(st.copies[h]))])
    case BeginLoad(c, id) => st.(calls := st.calls[c := Called(OpLoad(id))])
    case BeginConsume(c, id) => st.(calls := st.calls[c := Called(OpConsume(id))])
    case Lock(c) => st.(holder := Some(c), calls := st.calls[c := Locked(st.calls[c].op)])
    case Look(c) =>
      var op := st.calls[c].op;
      st.(calls := st.calls[c := Looked(op, if IdOf(op) in st.store then Some(st.store[IdOf(op)]) else None)])
    case Check(c) => TakeCheck(st, c)
    case Delete(c) =>
      st.(store := st.store - {IdOf(st.calls[c].op)},
          calls := st.calls[c := Done(st.calls[c].op, Some(Err(Is(SessionNotFound))))])
    case Claim(c) =>
      var s := st.calls[c].s.(consumed := true);
      st.(store := st.store[s.id := s], calls := st.calls[c := Done(OpConsume(s.id), Some(Ok(s)))],
          history := st.history + [Tried(s.id, st.calls[c].at, Ok(s))])
    case Write(c) =>
      var s := st.calls[c].op.s;
      st.(store := st.store[s.id := s], calls := st.calls[c := Done(OpSave(s), None)],
          history := st.history + [Saved(s)])
    case Unlock(c, h) =>
      var Done(op, answer) := st.calls[c];
      st.(holder := None, calls := st.calls - {c}, returned := st.returned + [Return(op, answer)],
          copies := if answer.Some? && answer.value.Ok? then st.copies[h := answer.value.value] else st.copies)
  }

  /** The decisions after the clock reading: where the call goes, and the answer if it is fixed now. */
  function Decide(op: Op, found: Option<SessionData>, now: int): (Pc, seq<Event>) {
    match found
    case None => Answer(op, now, Err(Is(SessionNotFound)))
    case Some(s) =>
      if !(now < s.expiresAt) then (Stale(op), [Answered(op, now, Err(Is(SessionNotFound)))])
      else if !op.OpConsume? then Answer(op, now, Ok(s))
      else if s.consumed then Answer(op, now, Err(Is(SessionConsumed)))
      else (Claiming(s, now), [])
  }

  function Answer(op: Op, now: int, out: Result<SessionData>): (Pc, seq<Event>) {
    (Done(op, Some(out)), [Answered(op, now, out)])
  }

  function TakeCheck(st: State, c: Caller): State
    requires c in st.calls && st.calls[c].Looked?
  {
    var (pc, events) := Decide(st.calls[c].op, st.calls[c].found, st.now);
    st.(calls := st.calls[c := pc], history := st.history + events)
  }

  predicate EngineEnabled(st: State, step: EngineStep) {
    if step.Create? then step.h !in st.copies else step.h in st.copies
  }

  /** What an engine call on copy `h` does: the copy it leaves, the tape it leaves, what it notes. */
  datatype Effect = Effect(copy: Option<SessionData>, tape: Tape, notes: seq<Note>)

  ghost function EffectOf(e: Settings, st: State, step: EngineStep): Effect
    requires EngineEnabled(st, step)
  {
    match step
    case Create(_, spec, key) => CreateEffect(e, st, spec, key)
    case Serve(h) => ServeEffect(e, st, st.copies[h])
    case ServeBrowser(h) => ServeBrowserEffect(e, st, st.copies[h])
    case ServeUnsigned(h) => ServeUnsignedEffect(e, st, st.copies[h])
    case Respond(h, body) => RespondEffect(e, st, st.copies[h], body)
    case RespondBrowser(h, origin, data) => RespondBrowserEffect(e, st, st.copies[h], origin, data)
    case Redeem(h, code) => RedeemEffect(st, st.copies[h], code)
    case Absorb(h, raw) => Effect(Some(WalletMetadata.Absorb(e.lib, st.copies[h], raw).0), st.tape, [])
  }

  ghost function CreateEffect(e: Settings, st: State, spec: NewSession.RequestSpec, key: Option<PrivateKey>): Effect {
    var (t, r) := NewSession.Create(e, spec, key, st.now, st.tape);
    if r.Err? then Effect(None, t, [])
    else Effect(Some(r.value.session), t, [Born(r.value.session)] + HandedOut(e, r.value.session, st.now))
  }

  /** A DCAPI session is created together with its signed request, which the caller gets. */
  function HandedOut(e: Settings, s: SessionData, now: int): seq<Note> {
    var r := RequestObject.SignedDCAPIRequest(e, s, now);
    if s.flow == DCAPI && r.Ok? then [Served(s, now, r.value.request)] else []
  }

  ghost function ServeEffect(e: Settings, st: State, s: SessionData): Effect {
    var (s', r) := RequestObject.Serve(e, s, st.now);
    Effect(Some(s'), st.tape, if r.Err? then [] else [Served(s, st.now, r.value.request)])
  }

  ghost function ServeBrowserEffect(e: Settings, st: State, s: SessionData): Effect {
    var r := RequestObject.SignedDCAPIRequest(e, s, st.now);
    Effect(None, st.tape, if r.Err? then [] else [Served(s, st.now, r.value.request)])
  }

  ghost function ServeUnsignedEffect(e: Settings, st: State, s: SessionData): Effect {
    var r := RequestObject.UnsignedDCAPIRequest(e, s);
    Effect(None, st.tape, if r.Err? then [] else [Served(s, st.now, r.value)])
  }

  ghost function RespondEffect(e: Settings, st: State, s: SessionData, body: Bytes): Effect {
    var (s', t, r) := Response.Respond(e, s, st.now, body, st.tape);
    Effect(Some(s'), t, if r.Err? then []
                        else [Accepted(s, |st.history|, false, [], r.value.presentations, r.value.code)])
  }

  ghost function RespondBrowserEffect(e: Settings, st: State, s: SessionData, origin: Bytes, data: Bytes): Effect {
    var r := Response.RespondDCAPI(e, s, st.now, origin, data);
    Effect(None, st.tape, if r.Err? then [] else [Accepted(s, |st.history|, true, origin, r.value, [])])
  }

  ghost function RedeemEffect(st: State, s: SessionData, code: Bytes): Effect {
    var (s', err) := SameDeviceReturn.Redeem(s, code);
    Effect(Some(s'), st.tape, if err.Some? then [] else [Redeemed(s, code)])
  }

  function Apply(st: State, h: Handle, eff: Effect): State {
    st.(copies := if eff.copy.Some? then st.copies[h := eff.copy.value] else st.copies,
        tape := eff.tape, journal := st.journal + eff.notes)
  }

  ghost function TakeEngine(e: Settings, st: State, step: EngineStep): State
    requires EngineEnabled(st, step)
  {
    Apply(st, step.h, EffectOf(e, st, step))
  }

  predicate Enabled(st: State, step: Step) {
    match step
    case Tick(_) => true
    case Adopt(h, _) => h !in st.copies
    case OnStore(s) => StoreEnabled(st, s)
    case OnEngine(s) => EngineEnabled(st, s)
  }

  ghost function Take(e: Settings, st: State, step: Step): State
    requires Enabled(st, step)
  {
    match step
    case Tick(d) => st.(now := st.now + d)
    case Adopt(h, s) => st.(copies := st.copies[h := s])
    case OnStore(s) => TakeStore(st, s)
    case OnEngine(s) => TakeEngine(e, st, s)
  }

  ghost predicate Steps(e: Settings, st: State, step: Step, st': State) {
    Enabled(st, step) && st' == Take(e, st, step)
  }

  function Front(steps: seq<Step>): seq<Step>
    requires |steps| > 0
  {
    steps[..|steps| - 1]
  }

  function Last(steps: seq<Step>): Step
    requires |steps| > 0
  {
    steps[|steps| - 1]
  }

  /** `st` is reached by taking `steps` one after the other from the initial state. */
  ghost predicate Reaches(e: Settings, bytes: Bytes, start: int, steps: seq<Step>, st: State)
    decreases |steps|
  {
    if |steps| == 0 then st == Init(bytes, start)
    else exists prev :: Reaches(e, bytes, start, Front(steps), prev) && Steps(e, prev, Last(steps), st)
  }

  // ---- The store side: mutual exclusion and agreement with the reference store.

  predicate Critical(pc: Pc) {
    !pc.Called?
  }

  /** What the progress of a call says about the store. */
  ghost predicate PcInv(st: State, pc: Pc) {
    match pc
    case Called(op) => op.OpSave? ==> op.s.id != []
    case Locked(op) => op.OpSave? ==> op.s.id != []
    case Looked(op, found) => !op.OpSave? && found == (if IdOf(op) in st.store then Some(st.store[IdOf(op)]) else None)
    case Stale(op) => !op.OpSave? && IdOf(op) in st.store && st.store[IdOf(op)].expiresAt <= st.now
    case Claiming(s, at) =>
      && s.id in st.store && st.store[s.id] == s && !s.consumed
      && at < s.expiresAt && at <= st.now && PastBefore(st.history, at)
    case Done(_, _) => true
  }

  ghost predicate Exclusive(st: State) {
    && (st.holder.Some? ==> st.holder.value in st.calls && Critical(st.calls[st.holder.value]))
    && (forall c :: c in st.calls && Critical(st.calls[c]) ==> st.holder == Some(c))
  }

  ghost predicate StoreInv(st: State) {
    && Exclusive(st)
    && (forall c :: c in st.calls ==> PcInv(st, st.calls[c]))
    && (forall id :: id in st.store ==> st.store[id].id == id)
    && Agrees(st.store, Ref(st.history), st.now)
    && Legal(st.history) && PastBefore(st.history, st.now)
  }

  lemma CallKeeps(st: State, c: Caller, op: Op)
    requires StoreInv(st) && c !in st.calls && (op.OpSave? ==> op.s.id != [])
    ensures StoreInv(st.(calls := st.calls[c := Called(op)]))
  {
    var st' := st.(calls := st.calls[c := Called(op)]);
    forall d | d in st'.calls ensures PcInv(st', st'.calls[d]) { if d != c { assert PcInv(st, st.calls[d]); } }
  }

  /** A step of the lock holder that leaves store, history and lock alone. */
  lemma HolderKeeps(st: State, c: Caller, pc: Pc)
    requires StoreInv(st) && c in st.calls && Critical(pc)
    requires st.holder == Some(c) || (st.holder == None && st.calls[c].Called?)
    requires PcInv(st, pc)
    ensures StoreInv(st.(holder := Some(c), calls := st.calls[c := pc]))
  {
    var st' := st.(holder := Some(c), calls := st.calls[c := pc]);
    forall d | d in st'.calls ensures PcInv(st', st'.calls[d]) { if d != c { assert PcInv(st, st.calls[d]); } }
  }

  /** A step of the lock holder that writes store or history: nobody else depends on them. */
  lemma HolderWrites(st: State, c: Caller, pc: Pc, store: Snapshots, history: seq<Event>)
    requires StoreInv(st) && c in st.calls && Critical(st.calls[c]) && Critical(pc)
    requires PcInv(st.(store := store, history := history), pc)
    requires forall id :: id in store ==> store[id].id == id
    requires Agrees(store, Ref(history), st.now) && Legal(history) && PastBefore(history, st.now)
    ensures StoreInv(st.(store := store, calls := st.calls[c := pc], history := history))
  {
    var st' := st.(store := store, calls := st.calls[c := pc], history := history);
    forall d | d in st'.calls ensures PcInv(st', st'.calls[d]) {
      if d != c {
        assert PcInv(st, st.calls[d]);
        assert st.holder == Some(c) && st.calls[d].Called?;
      }
    }
  }

  lemma LegalAppend(h: seq<Event>, ev: Event, t: int)
    requires Legal(h) && PastBefore(h, t) && LegalNext(h, ev) && (!ev.Saved? ==> ev.at <= t)
    ensures Legal(h + [ev]) && PastBefore(h + [ev], t)
    ensures Ref(h + [ev]) == match ev
                             case Saved(s) => Ref(h)[s.id := s]
                             case Loaded(_, _, _) => Ref(h)
                             case Tried(id, _, out) => if out.Ok? then Ref(h)[id := out.value] else Ref(h)
  {
    assert (h + [ev])[..|h|] == h;
  }

  lemma DecideIsLegal(st: State, op: Op, found: Option<SessionData>)
    requires StoreInv(st) && PcInv(st, Looked(op, found))
    ensures var (pc, events) := Decide(op, found, st.now);
            && PcInv(st.(history := st.history + events), pc) && Critical(pc)
            && |events| <= 1
            && (|events| == 1 ==> !events[0].Saved? && events[0].at == st.now && LegalNext(st.history, events[0]))
  {
    ConsumeAgrees(st.store, Ref(st.history), IdOf(op), st.now);
    assert st.history + [] == st.history;
  }

  lemma CheckKeeps(st: State, c: Caller)
    requires StoreInv(st) && c in st.calls && st.calls[c].Looked?
    ensures StoreInv(TakeCheck(st, c))
  {
    var Looked(op, found) := st.calls[c];
    assert PcInv(st, st.calls[c]);
    var (pc, events) := Decide(op, found, st.now);
    DecideIsLegal(st, op, found);
    if events == [] {
      assert st.history + events == st.history;
    } else {
      LegalAppend(st.history, events[0], st.now);
      assert events == [events[0]];
    }
    HolderWrites(st, c, pc, st.store, st.history + events);
  }

  lemma DeleteKeeps(st: State, c: Caller)
    requires StoreInv(st) && c in st.calls && st.calls[c].Stale?
    ensures StoreInv(TakeStore(st, Delete(c)))
  {
    assert PcInv(st, st.calls[c]);
    var op := st.calls[c].op;
    HolderWrites(st, c, Done(op, Some(Err(Is(SessionNotFound)))), st.store - {IdOf(op)}, st.history);
  }

  lemma ClaimKeeps(st: State, c: Caller)
    requires StoreInv(st) && c in st.calls && st.calls[c].Claiming?
    ensures StoreInv(TakeStore(st, Claim(c)))
  {
    assert PcInv(st, st.calls[c]);
    var before, at := st.calls[c].s, st.calls[c].at;
    var s := before.(consumed := true);
    LegalAppend(st.history, Tried(s.id, at, Ok(s)), st.now);
    HolderWrites(st, c, Done(OpConsume(s.id), Some(Ok(s))), st.store[s.id := s], st.history + [Tried(s.id, at, Ok(s))]);
  }

  lemma WriteKeeps(st: State, c: Caller)
    requires StoreInv(st) && StoreEnabled(st, Write(c))
    ensures StoreInv(TakeStore(st, Write(c)))
  {
    assert PcInv(st, st.calls[c]);
    var s := st.calls[c].op.s;
    LegalAppend(st.history, Saved(s), st.now);
    HolderWrites(st, c, Done(OpSave(s), None), st.store[s.id := s], st.history + [Saved(s)]);
  }

  lemma UnlockKeeps(st: State, c: Caller, h: Handle)
    requires StoreInv(st) && StoreEnabled(st, Unlock(c, h))
    ensures StoreInv(TakeStore(st, Unlock(c, h)))
  {
    var st' := TakeStore(st, Unlock(c, h));
    forall d | d in st'.calls ensures PcInv(st', st'.calls[d]) { assert PcInv(st, st.calls[d]); }
  }

  /** Every step of a store call keeps mutual exclusion and agreement with the reference store. */
  lemma StoreStepKeeps(st: State, step: StoreStep)
    requires StoreInv(st) && StoreEnabled(st, step)
    ensures StoreInv(TakeStore(st, step))
  {
    match step
    case BeginSave(c, h) => CallKeeps(st, c, OpSave(st.copies[h]));
    case BeginLoad(c, id) => CallKeeps(st, c, OpLoad(id));
    case BeginConsume(c, id) => CallKeeps(st, c, OpConsume(id));
    case Lock(c) =>
      assert PcInv(st, st.calls[c]);
      HolderKeeps(st, c, Locked(st.calls[c].op));
    case Look(c) =>
      var op := st.calls[c].op;
      assert st.holder == Some(c);
      HolderKeeps(st, c, Looked(op, if IdOf(op) in st.store then Some(st.store[IdOf(op)]) else None));
    case Check(c) => CheckKeeps(st, c);
    case Delete(c) => DeleteKeeps(st, c);
    case Claim(c) => ClaimKeeps(st, c);
    case Write(c) => WriteKeeps(st, c);
    case Unlock(c, h) => UnlockKeeps(st, c, h);
  }

  /** Engine calls, hand-built sessions and the clock touch neither the store nor its history. */
  lemma OthersKeep(st: State, st': State)
    requires StoreInv(st)
    requires st.store == st'.store && st.history == st'.history && st.calls == st'.calls && st.holder == st'.holder
    requires st.now <= st'.now
    ensures StoreInv(st')
  {
    forall c | c in st'.calls ensures PcInv(st', st'.calls[c]) { assert PcInv(st, st.calls[c]); }
  }

  lemma StepKeepsStoreInv(e: Settings, st: State, step: Step)
    requires StoreInv(st) && Enabled(st, step)
    ensures StoreInv(Take(e, st, step))
  {
    match step
    case OnStore(s) => StoreStepKeeps(st, s);
    case _ => OthersKeep(st, Take(e, st, step));
  }

  /** In every interleaving of any number of callers, whatever sessions they save, the calls that took
      effect form a legal history: each answered as the never-deleting reference store would have. */
  lemma {:induction false} RunsAreLegal(e: Settings, bytes: Bytes, start: int, steps: seq<Step>, st: State)
    requires Reaches(e, bytes, start, steps, st)
    ensures StoreInv(st)
    decreases |steps|
  {
    if |steps| == 0 {
    } else {
      var prev :| Reaches(e, bytes, start, Front(steps), prev) && Steps(e, prev, Last(steps), st);
      RunsAreLegal(e, bytes, start, Front(steps), prev);
      StepKeepsStoreInv(e, prev, Last(steps));
    }
  }

  /** A read or consumption after its lookup, to its return. */
  function Finish(st: State, c: Caller, h: Handle): State
    requires c in st.calls && st.calls[c].Looked? && h !in st.copies
  {
    var checked := TakeCheck(st, c);
    var done := if checked.calls[c].Stale? then TakeStore(checked, Delete(c))
                else if checked.calls[c].Claiming? then TakeStore(checked, Claim(c))
                else checked;
    TakeStore(done, Unlock(c, h))
  }

  /** A call that takes the free lock and runs through without interruption. */
  function Serial(st: State, c: Caller, h: Handle): State
    requires c in st.calls && st.calls[c].Called? && st.holder == None && h !in st.copies
  {
    var locked := TakeStore(st, Lock(c));
    if st.calls[c].op.OpSave? then TakeStore(TakeStore(locked, Write(c)), Unlock(c, h))
    else Finish(TakeStore(locked, Look(c)), c, h)
  }

  /** What the store's function gives for a read or a consumption. */
  function AtomicRead(st: State, op: Op): (Snapshots, Result<SessionData>) {
    if op.OpConsume? then ConsumeFrom(st.store, IdOf(op), st.now) else LoadFrom(st.store, IdOf(op), st.now)
  }

  lemma FinishIsAtomic(st: State, c: Caller, h: Handle)
    requires c in st.calls && st.calls[c].Looked? && h !in st.copies
    requires var Looked(op, found) := st.calls[c];
             && !op.OpSave? && found == (if IdOf(op) in st.store then Some(st.store[IdOf(op)]) else None)
             && (IdOf(op) in st.store ==> st.store[IdOf(op)].id == IdOf(op))
    ensures var op, st' := st.calls[c].op, Finish(st, c, h);
            && st'.holder == None && st'.calls.Keys == st.calls.Keys - {c}
            && st'.store == AtomicRead(st, op).0
            && st'.returned == st.returned + [Return(op, Some(AtomicRead(st, op).1))]
  {
    var op := st.calls[c].op;
    if IdOf(op) in st.store && st.now < st.store[IdOf(op)].expiresAt && op.OpConsume? && !st.store[IdOf(op)].consumed {
      assert op == OpConsume(IdOf(op));
    }
  }

  /** Taken as one piece, the small steps are the store's calls: the same new contents and the same
      answer as `SaveIn`, `LoadFrom` and `ConsumeFrom`, which the store object is proved to compute. */
  lemma SerialIsAtomic(st: State, c: Caller, h: Handle)
    requires StoreInv(st)
    requires c in st.calls && st.calls[c].Called? && st.holder == None && h !in st.copies
    ensures var op, st' := st.calls[c].op, Serial(st, c, h);
            && st'.holder == None && st'.calls.Keys == st.calls.Keys - {c}
            && (op.OpSave? ==>
                  && (st'.store, None) == SaveIn(st.store, op.s)
                  && st'.returned == st.returned + [Return(op, None)])
            && (!op.OpSave? ==> st'.store == AtomicRead(st, op).0
                                && st'.returned == st.returned + [Return(op, Some(AtomicRead(st, op).1))])
  {
    assert PcInv(st, st.calls[c]);
    if !st.calls[c].op.OpSave? {
      FinishIsAtomic(TakeStore(TakeStore(st, Lock(c)), Look(c)), c, h);
    }
  }

  // ---- What callers get back.

  /** A return gave exactly what the event of the call says. */
  predicate Matches(r: Return, ev: Event) {
    match r.op
    case OpSave(s) => ev == Saved(s) && r.answer == None
    case OpLoad(id) => ev.Loaded? && ev.id == id && r.answer == Some(ev.out)
    case OpConsume(id) => ev.Tried? && ev.id == id && r.answer == Some(ev.out)
  }

  /** The call whose answer is fixed but not yet returned. */
  function Pending(st: State): seq<Return> {
    if st.holder.None? || st.holder.value !in st.calls then []
    else
      match st.calls[st.holder.value]
      case Stale(op) => [Return(op, Some(Err(Is(SessionNotFound))))]
      case Done(op, answer) => [Return(op, answer)]
      case _ => []
  }

  ghost predicate AllMatch(rs: seq<Return>, h: seq<Event>) {
    |rs| == |h| && forall i :: 0 <= i < |rs| ==> Matches(rs[i], h[i])
  }

  ghost predicate ReturnInv(st: State) {
    AllMatch(st.returned + Pending(st), st.history)
  }

  lemma ReturnAppend(st: State, r: Return, ev: Event)
    requires ReturnInv(st) && Pending(st) == [] && Matches(r, ev)
    ensures AllMatch(st.returned + [r], st.history + [ev])
  {
    assert st.returned + [] == st.returned;
  }

  lemma CheckReturns(st: State, c: Caller)
    requires StoreInv(st) && ReturnInv(st) && c in st.calls && st.calls[c].Looked?
    ensures ReturnInv(TakeCheck(st, c))
  {
    assert st.holder == Some(c) && PcInv(st, st.calls[c]);
    var (pc, events) := Decide(st.calls[c].op, st.calls[c].found, st.now);
    if events == [] {
      assert st.history + events == st.history;
    } else {
      ReturnAppend(st, Pending(TakeCheck(st, c))[0], events[0]);
    }
  }

  lemma ClaimReturns(st: State, c: Caller)
    requires StoreInv(st) && ReturnInv(st) && StoreEnabled(st, Claim(c))
    ensures ReturnInv(TakeStore(st, Claim(c)))
  {
    assert st.holder == Some(c);
    var s := st.calls[c].s.(consumed := true);
    ReturnAppend(st, Return(OpConsume(s.id), Some(Ok(s))), Tried(s.id, st.calls[c].at, Ok(s)));
  }

  lemma WriteReturns(st: State, c: Caller)
    requires StoreInv(st) && ReturnInv(st) && StoreEnabled(st, Write(c))
    ensures ReturnInv(TakeStore(st, Write(c)))
  {
    assert st.holder == Some(c);
    var s := st.calls[c].op.s;
    ReturnAppend(st, Return(OpSave(s), None), Saved(s));
  }

  lemma UnlockReturns(st: State, c: Caller, h: Handle)
    requires StoreInv(st) && ReturnInv(st) && StoreEnabled(st, Unlock(c, h))
    ensures ReturnInv(TakeStore(st, Unlock(c, h)))
  {
    assert st.holder == Some(c);
    assert st.returned + [Return(st.calls[c].op, st.calls[c].answer)] + [] == st.returned + Pending(st);
  }

  lemma StoreStepReturns(st: State, step: StoreStep)
    requires StoreInv(st) && ReturnInv(st) && StoreEnabled(st, step)
    ensures ReturnInv(TakeStore(st, step))
  {
    match step
    case Check(c) => CheckReturns(st, c);
    case Delete(c) => assert st.holder == Some(c);
    case Claim(c) => ClaimReturns(st, c);
    case Write(c) => WriteReturns(st, c);
    case Unlock(c, h) => UnlockReturns(st, c, h);
    case Look(c) => assert st.holder == Some(c);
    case _ =>
  }

  lemma StepReturns(e: Settings, st: State, step: Step, st': State)
    requires StoreInv(st) && ReturnInv(st) && Steps(e, st, step, st')
    ensures ReturnInv(st')
  {
    match step
    case OnStore(s) => StoreStepReturns(st, s);
    case OnEngine(s) => ApplyReturns(st, s.h, EffectOf(e, st, s));
    case _ =>
      assert Pending(st') == Pending(st);
  }

  lemma ApplyReturns(st: State, h: Handle, eff: Effect)
    requires ReturnInv(st)
    ensures ReturnInv(Apply(st, h, eff))
  {
    assert Pending(Apply(st, h, eff)) == Pending(st);
  }

  /** In every interleaving, the calls that returned gave exactly the answers of the history, each
      one once and in the order in which they took effect; at most one answer is still on its way. */
  lemma {:induction false} ReturnsMatchHistory(e: Settings, bytes: Bytes, start: int, steps: seq<Step>, st: State)
    requires Reaches(e, bytes, start, steps, st)
    ensures AllMatch(st.returned + Pending(st), st.history) && |Pending(st)| <= 1
    ensures st.holder == None ==> AllMatch(st.returned, st.history)
    decreases |steps|
  {
    if |steps| == 0 {
    } else {
      var prev :| Reaches(e, bytes, start, Front(steps), prev) && Steps(e, prev, Last(steps), st);
      RunsAreLegal(e, bytes, start, Front(steps), prev);
      ReturnsMatchHistory(e, bytes, start, Front(steps), prev);
      StepReturns(e, prev, Last(steps), st);
    }
    assert st.returned + [] == st.returned;
  }

  /** How many returned `ConsumeOnce(id)` calls were given the session. */
  function ReturnedWins(rs: seq<Return>, id: Bytes): nat {
    if |rs| == 0 then 0
    else
      var r := rs[|rs| - 1];
      ReturnedWins(rs[..|rs| - 1], id) +
      if r.op == OpConsume(id) && r.answer.Some? && r.answer.value.Ok? then 1 else 0
  }

  lemma {:induction false} ReturnedWinsCount(rs: seq<Return>, h: seq<Event>, id: Bytes)
    requires AllMatch(rs, h)
    ensures ReturnedWins(rs, id) == Wins(h, id)
  {
    if |rs| == 0 {
    } else {
      var n := |rs| - 1;
      assert Matches(rs[n], h[n]);
      ReturnedWinsCount(rs[..n], h[..n], id);
    }
  }

  /** How many returned `Save` calls carried `id` with `Consumed=false`. */
  function ReturnedFreshSaves(rs: seq<Return>, id: Bytes): nat {
    if |rs| == 0 then 0
    else
      var op := rs[|rs| - 1].op;
      ReturnedFreshSaves(rs[..|rs| - 1], id) + if op.OpSave? && op.s.id == id && !op.s.consumed then 1 else 0
  }

  /** What the returned `ConsumeOnce(id)` calls since the last returned save with `Consumed=false` were given. */
  function ReturnedOutcomes(rs: seq<Return>, id: Bytes): seq<Option<Result<SessionData>>> {
    if |rs| == 0 then []
    else
      var init, r := rs[..|rs| - 1], rs[|rs| - 1];
      if r.op.OpSave? && r.op.s.id == id && !r.op.s.consumed then []
      else if r.op == OpConsume(id) then ReturnedOutcomes(init, id) + [r.answer]
      else ReturnedOutcomes(init, id)
  }

  lemma {:induction false} ReturnedOutcomesMatch(rs: seq<Return>, h: seq<Event>, id: Bytes)
    requires AllMatch(rs, h)
    ensures ReturnedFreshSaves(rs, id) == FreshSaves(h, id)
    ensures |ReturnedOutcomes(rs, id)| == |Outcomes(h, id)|
    ensures forall k :: 0 <= k < |Outcomes(h, id)| ==> ReturnedOutcomes(rs, id)[k] == Some(Outcomes(h, id)[k])
  {
    if |rs| == 0 {
    } else {
      var n := |rs| - 1;
      assert Matches(rs[n], h[n]);
      ReturnedOutcomesMatch(rs[..n], h[..n], id);
    }
  }

  lemma ReturnedWinsFront(rs: seq<Return>, pending: seq<Return>, id: Bytes)
    requires |pending| <= 1
    ensures ReturnedWins(rs, id) <= ReturnedWins(rs + pending, id)
  {
    if |pending| == 1 { assert (rs + pending)[..|rs|] == rs; } else { assert rs + pending == rs; }
  }

  /** In every interleaving, the callers that were given the session by `ConsumeOnce(id)` never
      outnumber the saves of `id` that carry `Consumed=false`. */
  lemma RunCountingBound(e: Settings, bytes: Bytes, start: int, steps: seq<Step>, st: State, id: Bytes)
    requires Reaches(e, bytes, start, steps, st)
    ensures ReturnedWins(st.returned, id) <= Wins(st.history, id) <= FreshSaves(st.history, id)
  {
    RunsAreLegal(e, bytes, start, steps, st);
    CountingBound(st.history, id);
    ReturnsMatchHistory(e, bytes, start, steps, st);
    ReturnedWinsCount(st.returned + Pending(st), st.history, id);
    ReturnedWinsFront(st.returned, Pending(st), id);
  }
}
