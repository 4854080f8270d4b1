/** What holds of every session, every served request and every accepted response in every run. */
module Protocol {
  import opened GoStrings
  import opened Errors
  import opened Session
  import opened Engine
  import opened MemStore
  import opened History
  import opened Runs
  import Base64url
  import NewSession
  import RequestObject
  import Response
  import SameDeviceReturn
  import Transcript
  import VPToken
  import WalletMetadata

  /** The session was created in this run: only its mutable marks may differ. */
  ghost predicate BornAs(j: seq<Note>, s: SessionData) {
    exists i :: 0 <= i < |j| && j[i].Born? && j[i].s.Core() == s.Core()
  }

  ghost predicate MintedFor(j: seq<Note>, id: Bytes, code: Bytes) {
    exists i :: 0 <= i < |j| && j[i].Accepted? && j[i].s.id == id && j[i].code == code
  }

  /** What every copy of a session in play satisfies, stored, held or on its way. */
  ghost predicate Sound(e: Settings, h: seq<Event>, j: seq<Note>, s: SessionData) {
    && NewSession.Shape(e, s)
    && BornAs(j, s)
    && (s.consumed ==> Won(h, s.id))
    && (s.responseCode != [] ==> MintedFor(j, s.id, s.responseCode))
  }

  ghost predicate PcSound(e: Settings, h: seq<Event>, j: seq<Note>, pc: Pc) {
    match pc
    case Called(op) => op.OpSave? ==> Sound(e, h, j, op.s)
    case Locked(op) => op.OpSave? ==> Sound(e, h, j, op.s)
    case Looked(op, found) => found.Some? ==> Sound(e, h, j, found.value)
    case Stale(_) => true
    case Claiming(s, _) => Sound(e, h, j, s)
    case Done(_, answer) => answer.Some? && answer.value.Ok? ==> Sound(e, h, j, answer.value.value)
  }

  ghost predicate AllSound(e: Settings, st: State) {
    && (forall h :: h in st.copies ==> Sound(e, st.history, st.journal, st.copies[h]))
    && (forall id :: id in st.store ==> Sound(e, st.history, st.journal, st.store[id]))
    && (forall c :: c in st.calls ==> PcSound(e, st.history, st.journal, st.calls[c]))
  }

  /** A longer history or journal takes nothing away. */
  lemma SoundGrows(e: Settings, h: seq<Event>, j: seq<Note>, h': seq<Event>, j': seq<Note>, s: SessionData)
    requires Sound(e, h, j, s) && h <= h' && j <= j'
    ensures Sound(e, h', j', s)
  {
    var b :| 0 <= b < |j| && j[b].Born? && j[b].s.Core() == s.Core();
    assert j'[b] == j[b];
    if s.consumed {
      var w :| 0 <= w < |h| && IsWin(h[w], s.id);
      assert h'[w] == h[w];
    }
    if s.responseCode != [] {
      var m :| 0 <= m < |j| && j[m].Accepted? && j[m].s.id == s.id && j[m].code == s.responseCode;
      assert j'[m] == j[m];
    }
  }

  lemma PcSoundGrows(e: Settings, h: seq<Event>, j: seq<Note>, h': seq<Event>, j': seq<Note>, pc: Pc)
    requires PcSound(e, h, j, pc) && h <= h' && j <= j'
    ensures PcSound(e, h', j', pc)
  {
    match pc
    case Called(op) => if op.OpSave? { SoundGrows(e, h, j, h', j', op.s); }
    case Locked(op) => if op.OpSave? { SoundGrows(e, h, j, h', j', op.s); }
    case Looked(op, found) => if found.Some? { SoundGrows(e, h, j, h', j', found.value); }
    case Stale(_) =>
    case Claiming(s, _) => SoundGrows(e, h, j, h', j', s);
    case Done(_, answer) => if answer.Some? && answer.value.Ok? { SoundGrows(e, h, j, h', j', answer.value.value); }
  }

  lemma AllSoundGrows(e: Settings, st: State, h': seq<Event>, j': seq<Note>)
    requires AllSound(e, st) && st.history <= h' && st.journal <= j'
    ensures AllSound(e, st.(history := h', journal := j'))
  {
    forall k | k in st.copies ensures Sound(e, h', j', st.copies[k]) {
      SoundGrows(e, st.history, st.journal, h', j', st.copies[k]);
    }
    forall id | id in st.store ensures Sound(e, h', j', st.store[id]) {
      SoundGrows(e, st.history, st.journal, h', j', st.store[id]);
    }
    forall c | c in st.calls ensures PcSound(e, h', j', st.calls[c]) {
      PcSoundGrows(e, st.history, st.journal, h', j', st.calls[c]);
    }
  }

  /** Moving sound sessions between store, calls and copies. */
  lemma MoveSound(e: Settings, st: State, st': State)
    requires AllSound(e, st) && st.history == st'.history && st.journal == st'.journal
    requires forall k :: k in st'.copies ==>
               || (k in st.copies && st'.copies[k] == st.copies[k])
               || Sound(e, st.history, st.journal, st'.copies[k])
    requires forall id :: id in st'.store ==>
               || (id in st.store && st'.store[id] == st.store[id])
               || Sound(e, st.history, st.journal, st'.store[id])
    requires forall c :: c in st'.calls ==>
               || (c in st.calls && st'.calls[c] == st.calls[c])
               || PcSound(e, st.history, st.journal, st'.calls[c])
    ensures AllSound(e, st')
  {
  }

  lemma DecideSound(e: Settings, h: seq<Event>, j: seq<Note>, op: Op, found: Option<SessionData>, now: int)
    requires found.Some? ==> Sound(e, h, j, found.value)
    ensures PcSound(e, h, j, Decide(op, found, now).0)
    ensures |Decide(op, found, now).1| <= 1 && forall ev :: ev in Decide(op, found, now).1 ==> !ev.Saved?
  {
  }

  lemma CheckSound(e: Settings, st: State, c: Caller)
    requires AllSound(e, st) && c in st.calls && st.calls[c].Looked?
    ensures AllSound(e, TakeCheck(st, c))
  {
    var st' := TakeCheck(st, c);
    assert PcSound(e, st.history, st.journal, st.calls[c]);
    DecideSound(e, st.history, st.journal, st.calls[c].op, st.calls[c].found, st.now);
    PcSoundGrows(e, st.history, st.journal, st'.history, st.journal, st'.calls[c]);
    AllSoundGrows(e, st, st'.history, st.journal);
    MoveSound(e, st.(history := st'.history), st');
  }

  lemma ClaimSound(e: Settings, st: State, c: Caller)
    requires AllSound(e, st) && c in st.calls && st.calls[c].Claiming?
    ensures AllSound(e, TakeStore(st, Claim(c)))
  {
    var st' := TakeStore(st, Claim(c));
    assert PcSound(e, st.history, st.journal, st.calls[c]);
    AllSoundGrows(e, st, st'.history, st.journal);
    var mid := st.(history := st'.history);
    assert PcSound(e, mid.history, mid.journal, mid.calls[c]);
    var s := st.calls[c].s.(consumed := true);
    assert IsWin(st'.history[|st.history|], s.id);
    assert s.Core() == st.calls[c].s.Core();
    assert Sound(e, st'.history, st.journal, s);
    MoveSound(e, mid, st');
  }

  lemma WriteSound(e: Settings, st: State, c: Caller)
    requires AllSound(e, st) && StoreEnabled(st, Write(c))
    ensures AllSound(e, TakeStore(st, Write(c)))
  {
    var st' := TakeStore(st, Write(c));
    AllSoundGrows(e, st, st'.history, st.journal);
    var mid := st.(history := st'.history);
    assert PcSound(e, mid.history, mid.journal, mid.calls[c]);
    MoveSound(e, mid, st');
  }

  lemma UnlockSound(e: Settings, st: State, c: Caller, h: Handle)
    requires AllSound(e, st) && StoreEnabled(st, Unlock(c, h))
    ensures AllSound(e, TakeStore(st, Unlock(c, h)))
  {
    assert PcSound(e, st.history, st.journal, st.calls[c]);
    MoveSound(e, st, TakeStore(st, Unlock(c, h)));
  }

  /** Starting, locking, reading and deleting. */
  lemma QuietSound(e: Settings, st: State, step: StoreStep)
    requires AllSound(e, st) && StoreEnabled(st, step)
    requires step.BeginSave? || step.BeginLoad? || step.BeginConsume? || step.Lock? || step.Look? || step.Delete?
    ensures AllSound(e, TakeStore(st, step))
  {
    if step.Lock? { assert PcSound(e, st.history, st.journal, st.calls[step.c]); }
    MoveSound(e, st, TakeStore(st, step));
  }

  /** Store steps only move sessions, and mark one consumed when its `ConsumeOnce` succeeds. */
  lemma StoreStepSound(e: Settings, st: State, step: StoreStep)
    requires AllSound(e, st) && StoreEnabled(st, step)
    ensures AllSound(e, TakeStore(st, step))
  {
    match step
    case Check(c) => CheckSound(e, st, c);
    case Claim(c) => ClaimSound(e, st, c);
    case Write(c) => WriteSound(e, st, c);
    case Unlock(c, h) => UnlockSound(e, st, c, h);
    case _ => QuietSound(e, st, step);
  }

  // ---- Engine calls.

  /** The claims a request for `s` carries at time `at`. */
  function ClaimsFor(e: Settings, s: SessionData, at: int): Result<Request> {
    if s.flow == DCAPI then RequestObject.ClaimsForDCAPI(e, s, true, at) else RequestObject.RequestClaims(e, s, at)
  }

  /** `q` is a request that advertises `s`: its request object, or a signed or unsigned DCAPI request. */
  predicate Advertises(e: Settings, s: SessionData, at: int, q: Request) {
    || ClaimsFor(e, s, at) == Ok(q)
    || (s.flow == DCAPI && RequestObject.ClaimsForDCAPI(e, s, false, at) == Ok(q))
  }

  /** The origin a response path stamps: one of the session's for DCAPI, none otherwise. */
  predicate OriginFits(s: SessionData, origin: Bytes) {
    if s.flow == DCAPI then origin in s.expectedOrigins else origin == []
  }

  ghost predicate NoteSound(e: Settings, h: seq<Event>, j: seq<Note>, n: Note) {
    match n
    case Born(s) => NewSession.Shape(e, s)
    case Served(s, at, request) => BornAs(j, s) && Advertises(e, s, at, request)
    case Accepted(s, stamp, browser, origin, presentations, code) =>
      && BornAs(j, s) && NewSession.Shape(e, s) && s.consumed
      && stamp <= |h| && Won(h[..stamp], s.id)
      && (browser <==> s.flow == DCAPI) && OriginFits(s, origin)
      && (forall p :: p in presentations ==> Response.BoundTo(e.lib, s, origin, p))
    case Redeemed(s, code) => BornAs(j, s) && code != [] && MintedFor(j, s.id, code)
  }

  ghost predicate NotesSound(e: Settings, st: State) {
    forall i :: 0 <= i < |st.journal| ==> NoteSound(e, st.history, st.journal, st.journal[i])
  }

  lemma NoteSoundGrows(e: Settings, h: seq<Event>, j: seq<Note>, h': seq<Event>, j': seq<Note>, n: Note)
    requires NoteSound(e, h, j, n) && h <= h' && j <= j'
    ensures NoteSound(e, h', j', n)
  {
    if !n.Born? {
      var b :| 0 <= b < |j| && j[b].Born? && j[b].s.Core() == n.s.Core();
      assert j'[b] == j[b];
    }
    if n.Accepted? { assert h'[..n.stamp] == h[..n.stamp]; }
    if n.Redeemed? {
      var m :| 0 <= m < |j| && j[m].Accepted? && j[m].s.id == n.s.id && j[m].code == n.code;
      assert j'[m] == j[m];
    }
  }

  lemma NotesSoundGrows(e: Settings, st: State, h': seq<Event>, notes: seq<Note>)
    requires NotesSound(e, st) && st.history <= h'
    requires forall i :: 0 <= i < |notes| ==> NoteSound(e, h', st.journal + notes, notes[i])
    ensures NotesSound(e, st.(history := h', journal := st.journal + notes))
  {
    var j' := st.journal + notes;
    forall i | 0 <= i < |j'| ensures NoteSound(e, h', j', j'[i]) {
      if i < |st.journal| { NoteSoundGrows(e, st.history, st.journal, h', j', st.journal[i]); }
    }
  }

  /** What an engine call may do: leave a sound copy and sound notes. */
  ghost predicate EffectSound(e: Settings, st: State, eff: Effect) {
    var j := st.journal + eff.notes;
    && (eff.copy.Some? ==> Sound(e, st.history, j, eff.copy.value))
    && forall i :: 0 <= i < |eff.notes| ==> NoteSound(e, st.history, j, eff.notes[i])
  }

  lemma CreateSound(e: Settings, st: State, spec: NewSession.RequestSpec, key: Option<PrivateKey>)
    requires Ready(e) && LawfulKeys(e.lib)
    ensures EffectSound(e, st, CreateEffect(e, st, spec, key))
  {
    var (t, r) := NewSession.Create(e, spec, key, st.now, st.tape);
    if r.Ok? {
      NewSession.CreateShape(e, spec, key, st.now, st.tape);
      BirthSound(e, st, r.value.session);
    }
  }

  lemma BirthSound(e: Settings, st: State, s: SessionData)
    requires NewSession.Shape(e, s) && !s.consumed && s.responseCode == []
    ensures var notes := [Born(s)] + HandedOut(e, s, st.now);
            var j := st.journal + notes;
            Sound(e, st.history, j, s) && forall i :: 0 <= i < |notes| ==> NoteSound(e, st.history, j, notes[i])
  {
    var j := st.journal + ([Born(s)] + HandedOut(e, s, st.now));
    assert j[|st.journal|] == Born(s);
    assert BornAs(j, s);
  }

  lemma ServeSound(e: Settings, st: State, s: SessionData)
    requires Sound(e, st.history, st.journal, s)
    ensures EffectSound(e, st, ServeEffect(e, st, s))
  {
    var eff := ServeEffect(e, st, s);
    SoundGrows(e, st.history, st.journal, st.history, st.journal + eff.notes, s);
    assert s.(requestObjectServed := true).Core() == s.Core();
    SoundMarks(e, st.history, st.journal + eff.notes, s, eff.copy.value);
  }

  lemma ServeBrowserSound(e: Settings, st: State, s: SessionData)
    requires Sound(e, st.history, st.journal, s)
    ensures EffectSound(e, st, ServeBrowserEffect(e, st, s))
  {
    SoundGrows(e, st.history, st.journal, st.history, st.journal + ServeBrowserEffect(e, st, s).notes, s);
  }

  lemma ServeUnsignedSound(e: Settings, st: State, s: SessionData)
    requires Sound(e, st.history, st.journal, s)
    ensures EffectSound(e, st, ServeUnsignedEffect(e, st, s))
  {
    SoundGrows(e, st.history, st.journal, st.history, st.journal + ServeUnsignedEffect(e, st, s).notes, s);
  }

  /** Setting marks that say nothing about consumption or codes. */
  lemma SoundMarks(e: Settings, h: seq<Event>, j: seq<Note>, s: SessionData, s': SessionData)
    requires Sound(e, h, j, s) && s'.Core() == s.Core() && s'.consumed == s.consumed
    requires s'.responseCode == s.responseCode && (s'.responseCodeUsed ==> s.responseCode != [])
    ensures Sound(e, h, j, s')
  {
    CoreFields(s, s');
  }

  lemma CoreFields(s: SessionData, t: SessionData)
    requires s.Core() == t.Core()
    ensures t == s.(requestObjectServed := t.requestObjectServed, walletMetadata := t.walletMetadata,
                    consumed := t.consumed, responseCode := t.responseCode, responseCodeUsed := t.responseCodeUsed)
  {
    assert s.Core().id == s.id && t.Core().id == t.id && s.Core().flow == s.flow && t.Core().flow == t.flow;
    assert s.Core().clientID == s.clientID && t.Core().clientID == t.clientID;
    assert s.Core().nonce == s.nonce && t.Core().nonce == t.nonce;
    assert s.Core().state == s.state && t.Core().state == t.state;
  }

  lemma AcceptedSound(e: Settings, st: State, s: SessionData, origin: Bytes, prs: seq<VPToken.Presentation>,
                      code: Bytes)
    requires Sound(e, st.history, st.journal, s) && s.consumed && OriginFits(s, origin)
    requires forall p :: p in prs ==> Response.BoundTo(e.lib, s, origin, p)
    ensures var n := Accepted(s, |st.history|, s.flow == DCAPI, origin, prs, code);
            NoteSound(e, st.history, st.journal + [n], n)
  {
    var j := st.journal + [Accepted(s, |st.history|, s.flow == DCAPI, origin, prs, code)];
    SoundGrows(e, st.history, st.journal, st.history, j, s);
    assert st.history[..|st.history|] == st.history;
  }

  lemma MintSound(e: Settings, h: seq<Event>, j: seq<Note>, s: SessionData, code: Bytes)
    requires Sound(e, h, j, s) && s.flow == SameDevice && s.consumed && MintedFor(j, s.id, code)
    ensures Sound(e, h, j, s.(responseCode := code, responseCodeUsed := false))
  {
    assert s.(responseCode := code, responseCodeUsed := false).Core() == s.Core();
  }

  lemma RespondSound(e: Settings, st: State, s: SessionData, body: Bytes)
    requires Sound(e, st.history, st.journal, s)
    ensures EffectSound(e, st, RespondEffect(e, st, s, body))
  {
    var (s', t, r) := Response.Respond(e, s, st.now, body, st.tape);
    if r.Ok? {
      var n := Accepted(s, |st.history|, false, [], r.value.presentations, r.value.code);
      var j := st.journal + [n];
      Response.RespondBound(e, s, st.now, body, st.tape);
      AcceptedSound(e, st, s, [], r.value.presentations, r.value.code);
      SoundGrows(e, st.history, st.journal, st.history, j, s);
      assert j[|st.journal|] == n;
      Response.RespondLeaves(e, s, st.now, body, st.tape);
      if s.flow == SameDevice { MintSound(e, st.history, j, s, r.value.code); }
    } else {
      Response.RespondFailureKeeps(e, s, st.now, body, st.tape);
      assert st.journal + [] == st.journal;
    }
  }

  lemma RespondBrowserSound(e: Settings, st: State, s: SessionData, origin: Bytes, data: Bytes)
    requires Sound(e, st.history, st.journal, s)
    ensures EffectSound(e, st, RespondBrowserEffect(e, st, s, origin, data))
  {
    var r := Response.RespondDCAPI(e, s, st.now, origin, data);
    if r.Ok? {
      Response.RespondDCAPIBound(e, s, st.now, origin, data);
      AcceptedSound(e, st, s, origin, r.value, []);
    }
  }

  lemma RedeemSound(e: Settings, st: State, s: SessionData, code: Bytes)
    requires Sound(e, st.history, st.journal, s)
    ensures EffectSound(e, st, RedeemEffect(st, s, code))
  {
    var eff := RedeemEffect(st, s, code);
    var j := st.journal + eff.notes;
    SoundGrows(e, st.history, st.journal, st.history, j, s);
    assert s.(responseCodeUsed := true).Core() == s.Core();
    SoundMarks(e, st.history, j, s, eff.copy.value);
  }

  lemma AbsorbSound(e: Settings, st: State, s: SessionData, raw: Bytes)
    requires Sound(e, st.history, st.journal, s)
    ensures EffectSound(e, st, Effect(Some(WalletMetadata.Absorb(e.lib, s, raw).0), st.tape, []))
  {
    assert st.journal + [] == st.journal;
    assert s.(walletMetadata := raw).Core() == s.Core();
    SoundMarks(e, st.history, st.journal, s, WalletMetadata.Absorb(e.lib, s, raw).0);
  }

  lemma EffectIsSound(e: Settings, st: State, step: EngineStep)
    requires Ready(e) && LawfulKeys(e.lib) && AllSound(e, st) && EngineEnabled(st, step)
    ensures EffectSound(e, st, EffectOf(e, st, step))
  {
    if step.Create? {
      CreateSound(e, st, step.spec, step.key);
    } else if step.Absorb? {
      AbsorbSound(e, st, st.copies[step.h], step.raw);
    } else if Requests(step) {
      RequestIsSound(e, st, step);
    } else {
      AnswerIsSound(e, st, step);
    }
  }

  predicate Requests(step: EngineStep) {
    step.Serve? || step.ServeBrowser? || step.ServeUnsigned?
  }

  lemma RequestIsSound(e: Settings, st: State, step: EngineStep)
    requires AllSound(e, st) && EngineEnabled(st, step) && Requests(step)
    ensures EffectSound(e, st, EffectOf(e, st, step))
  {
    match step
    case Serve(h) => ServeSound(e, st, st.copies[h]);
    case ServeBrowser(h) => ServeBrowserSound(e, st, st.copies[h]);
    case ServeUnsigned(h) => ServeUnsignedSound(e, st, st.copies[h]);
  }

  lemma AnswerIsSound(e: Settings, st: State, step: EngineStep)
    requires AllSound(e, st) && EngineEnabled(st, step) && (step.Respond? || step.RespondBrowser? || step.Redeem?)
    ensures EffectSound(e, st, EffectOf(e, st, step))
  {
    match step
    case Respond(h, body) => RespondSound(e, st, st.copies[h], body);
    case RespondBrowser(h, origin, data) => RespondBrowserSound(e, st, st.copies[h], origin, data);
    case Redeem(h, code) => RedeemSound(e, st, st.copies[h], code);
  }

  lemma ApplySound(e: Settings, st: State, h: Handle, eff: Effect)
    requires AllSound(e, st) && NotesSound(e, st) && EffectSound(e, st, eff)
    ensures AllSound(e, Apply(st, h, eff)) && NotesSound(e, Apply(st, h, eff))
  {
    var j := st.journal + eff.notes;
    AllSoundGrows(e, st, st.history, j);
    NotesSoundGrows(e, st, st.history, eff.notes);
    MoveSound(e, st.(journal := j), Apply(st, h, eff));
  }

  // ---- Saves.

  /** A saved copy was born in this run, and a consumed one is saved only after a success. */
  ghost predicate SavesSound(st: State) {
    forall i :: 0 <= i < |st.history| && st.history[i].Saved? ==>
      && BornAs(st.journal, st.history[i].s)
      && (st.history[i].s.consumed ==> Won(st.history[..i], st.history[i].s.id))
  }

  lemma SavesSoundGrows(st: State, ev: Event)
    requires SavesSound(st)
    requires ev.Saved? ==> BornAs(st.journal, ev.s) && (ev.s.consumed ==> Won(st.history, ev.s.id))
    ensures SavesSound(st.(history := st.history + [ev]))
  {
    var h' := st.history + [ev];
    forall i | 0 <= i < |h'| && h'[i].Saved?
      ensures BornAs(st.journal, h'[i].s) && (h'[i].s.consumed ==> Won(h'[..i], h'[i].s.id))
    {
      if i < |st.history| { assert h'[..i] == st.history[..i]; } else { assert h'[..i] == st.history; }
    }
  }

  lemma SavesSoundJournal(st: State, j': seq<Note>)
    requires SavesSound(st) && st.journal <= j'
    ensures SavesSound(st.(journal := j'))
  {
    forall i | 0 <= i < |st.history| && st.history[i].Saved? ensures BornAs(j', st.history[i].s) {
      var b :| 0 <= b < |st.journal| && st.journal[b].Born? && st.journal[b].s.Core() == st.history[i].s.Core();
      assert j'[b] == st.journal[b];
    }
  }

  lemma CheckSaves(e: Settings, st: State, c: Caller)
    requires SavesSound(st) && AllSound(e, st) && c in st.calls && st.calls[c].Looked?
    ensures SavesSound(TakeCheck(st, c))
  {
    var (pc, events) := Decide(st.calls[c].op, st.calls[c].found, st.now);
    assert PcSound(e, st.history, st.journal, st.calls[c]);
    DecideSound(e, st.history, st.journal, st.calls[c].op, st.calls[c].found, st.now);
    if events == [] {
      assert st.history + events == st.history;
    } else {
      assert events == [events[0]] && events[0] in events;
      SavesSoundGrows(st, events[0]);
    }
  }

  lemma StoreStepSaves(e: Settings, st: State, step: StoreStep)
    requires SavesSound(st) && AllSound(e, st) && StoreEnabled(st, step)
    ensures SavesSound(TakeStore(st, step))
  {
    match step
    case Check(c) => CheckSaves(e, st, c);
    case Claim(c) =>
      var s := st.calls[c].s.(consumed := true);
      SavesSoundGrows(st, Tried(s.id, st.calls[c].at, Ok(s)));
    case Write(c) =>
      assert PcSound(e, st.history, st.journal, st.calls[c]);
      SavesSoundGrows(st, Saved(st.calls[c].op.s));
    case _ =>
  }

  lemma StoreStepNotes(e: Settings, st: State, step: StoreStep)
    requires NotesSound(e, st) && StoreEnabled(st, step)
    ensures NotesSound(e, TakeStore(st, step))
  {
    var st' := TakeStore(st, step);
    assert st.history <= st'.history && st'.journal == st.journal;
    assert st.journal + [] == st.journal;
    NotesSoundGrows(e, st, st'.history, []);
  }

  /** The invariant of every run. */
  ghost predicate Inv(e: Settings, st: State) {
    StoreInv(st) && AllSound(e, st) && NotesSound(e, st) && SavesSound(st)
  }

  lemma StepKeepsInv(e: Settings, st: State, step: Step)
    requires Ready(e) && LawfulKeys(e.lib) && Inv(e, st) && Enabled(st, step) && !step.Adopt?
    ensures Inv(e, Take(e, st, step))
  {
    StepKeepsStoreInv(e, st, step);
    match step
    case Tick(_) =>
    case OnStore(s) =>
      StoreStepSound(e, st, s);
      StoreStepSaves(e, st, s);
      StoreStepNotes(e, st, s);
    case OnEngine(s) =>
      EffectIsSound(e, st, s);
      ApplySound(e, st, s.h, EffectOf(e, st, s));
      SavesSoundJournal(st, st.journal + EffectOf(e, st, s).notes);
  }

  /** Sessions enter only through `NewSession`. */
  ghost predicate AllCreated(steps: seq<Step>) {
    forall i :: 0 <= i < |steps| ==> !steps[i].Adopt?
  }

  lemma {:induction false} RunsKeepInv(e: Settings, bytes: Bytes, start: int, steps: seq<Step>, st: State)
    requires Ready(e) && LawfulKeys(e.lib) && Reaches(e, bytes, start, steps, st) && AllCreated(steps)
    ensures Inv(e, st)
    decreases |steps|
  {
    if |steps| == 0 {
    } else {
      var prev :| Reaches(e, bytes, start, Front(steps), prev) && Steps(e, prev, Last(steps), st);
      RunsKeepInv(e, bytes, start, Front(steps), prev);
      StepKeepsInv(e, prev, Last(steps));
    }
  }
}
