/** The in-memory session store: the object, its calls as functions of the stored snapshots,
    and the reference store it cannot be told apart from. */
module MemStore {
  import opened GoStrings
  import opened Errors
  import opened Session
  import opened Engine

  /** JSON serialization of sessions. */
  datatype Codec = Codec(marshal: SessionData -> Bytes, unmarshal: Bytes -> Option<SessionData>)

  ghost predicate LawfulCodec(c: Codec) {
    forall s: SessionData :: c.unmarshal(c.marshal(s)) == Some(s)
  }

  type Snapshots = map<Bytes, SessionData>

  /** `load`: an expired record is deleted and reported as not found. */
  function LoadFrom(m: Snapshots, id: Bytes, now: int): (Snapshots, Result<SessionData>) {
    if id !in m then (m, Err(Is(SessionNotFound)))
    else if !(now < m[id].expiresAt) then (m - {id}, Err(Is(SessionNotFound)))
    else (m, Ok(m[id]))
  }

  /** `ConsumeOnce`. */
  function ConsumeFrom(m: Snapshots, id: Bytes, now: int): (Snapshots, Result<SessionData>) {
    var (m', r) := LoadFrom(m, id, now);
    match r
    case Err(fault) => (m', Err(fault))
    case Ok(s) =>
      if s.consumed then (m', Err(Is(SessionConsumed)))
      else (m'[id := s.(consumed := true)], Ok(s.(consumed := true)))
  }

  /** `Save`. */
  function SaveIn(m: Snapshots, s: SessionData): (Snapshots, Option<Error>) {
    if s.id == [] then (m, Some(Is(SessionInvalid))) else (m[s.id := s], None)
  }

  class MemStore {
    const codec: Codec
    const clock: Clock
    var sessions: map<Bytes, Bytes>

    /** Every stored text is the snapshot of a session with that id. */
    ghost predicate Valid()
      reads this
    {
      && LawfulCodec(codec)
      && forall id :: id in sessions ==>
           && codec.unmarshal(sessions[id]).Some? && codec.unmarshal(sessions[id]).value.id == id
           && codec.marshal(codec.unmarshal(sessions[id]).value) == sessions[id]
    }

    /** The abstract store. */
    ghost function Contents(): Snapshots
      reads this
      requires Valid()
    {
      map id | id in sessions :: codec.unmarshal(sessions[id]).value
    }

    constructor (codec: Codec, clock: Clock)
      requires LawfulCodec(codec)
      ensures Valid() && Contents() == map[] && this.codec == codec && this.clock == clock
    {
      this.codec, this.clock, this.sessions := codec, clock, map[];
    }

    method Save(s: Session?) returns (err: Option<Error>)
      requires Valid()
      modifies this
      ensures Valid()
      ensures s == null ==> err == Some(Is(SessionInvalid)) && Contents() == old(Contents())
      ensures s != null ==> (Contents(), err) == SaveIn(old(Contents()), s.Snapshot())
      ensures s != null && s.id == [] ==> err == Some(Is(SessionInvalid)) && Contents() == old(Contents())
      ensures s != null && s.id != [] ==> err == None && Contents() == old(Contents())[s.id := s.Snapshot()]
    {
      if s == null || s.id == [] { return Some(Is(SessionInvalid)); }
      var raw := codec.marshal(s.Snapshot());
      sessions := sessions[s.id := raw];
      assert codec.unmarshal(raw) == Some(s.Snapshot());
      assert Contents() == old(Contents())[s.id := s.Snapshot()];
      return None;
    }

    /** The returned object is new: changing it later changes nothing in the store. */
    method Load(id: Bytes) returns (r: Result<Session>)
      requires Valid()
      modifies this
      ensures Valid()
      ensures var (m, out) := LoadFrom(old(Contents()), id, clock.now);
              && Contents() == m
              && (r.Ok? <==> out.Ok?)
              && (r.Ok? ==> fresh(r.value) && r.value.Snapshot() == out.value)
              && (r.Err? ==> r.error == out.error)
    {
      if id !in sessions { return Err(Is(SessionNotFound)); }
      var s := codec.unmarshal(sessions[id]);
      if s.None? { return Err(WrappingForeign(SessionInvalid)); }
      if !(clock.now < s.value.expiresAt) {
        sessions := sessions - {id};
        return Err(Is(SessionNotFound));
      }
      var copy := new Session(s.value);
      return Ok(copy);
    }

    method ConsumeOnce(id: Bytes) returns (r: Result<Session>)
      requires Valid()
      modifies this
      ensures Valid()
      ensures var (m, out) := ConsumeFrom(old(Contents()), id, clock.now);
              && Contents() == m
              && (r.Ok? <==> out.Ok?)
              && (r.Ok? ==> fresh(r.value) && r.value.Snapshot() == out.value)
              && (r.Err? ==> r.error == out.error)
    {
      r := Load(id);
      if r.Err? { return; }
      var s := r.value;
      if s.consumed { return Err(Is(SessionConsumed)); }
      s.consumed := true;
      sessions := sessions[id := codec.marshal(s.Snapshot())];
    }
  }

  /** Changing an object after it was saved, or a loaded copy, leaves the store as it was. */
  method CopiesAreIndependent(m: MemStore, s: Session, nonce: Bytes) returns (r: Result<Session>)
    requires m.Valid() && s.id != [] && m.clock.now < s.expiresAt
    modifies m, s
    ensures m.Valid() && m.Contents() == old(m.Contents())[old(s.id) := old(s.Snapshot())]
    ensures r.Ok? && fresh(r.value) && r.value.Snapshot() == old(s.Snapshot())
  {
    var err := m.Save(s);
    s.nonce := nonce;
    var first := m.Load(s.id);
    first.value.nonce := nonce;
    first.value.consumed := true;
    r := m.Load(s.id);
  }

  // ---- The reference store: a plain map that never deletes, and filters expired records on read.

  function RefLoad(m: Snapshots, id: Bytes, now: int): Result<SessionData> {
    if id in m && now < m[id].expiresAt then Ok(m[id]) else Err(Is(SessionNotFound))
  }

  function RefConsume(m: Snapshots, id: Bytes, now: int): Result<SessionData> {
    if !(id in m && now < m[id].expiresAt) then Err(Is(SessionNotFound))
    else if m[id].consumed then Err(Is(SessionConsumed))
    else Ok(m[id].(consumed := true))
  }

  datatype Call = CallSave(s: SessionData) | CallLoad(id: Bytes, now: int) | CallConsume(id: Bytes, now: int)

  datatype Answer = Stored(err: Option<Error>) | Given(out: Result<SessionData>)

  /** The answers of the store to a sequence of calls. */
  function Drive(m: Snapshots, calls: seq<Call>): seq<Answer>
    decreases |calls|
  {
    if |calls| == 0 then []
    else
      match calls[0]
      case CallSave(s) => var (m', err) := SaveIn(m, s); [Stored(err)] + Drive(m', calls[1..])
      case CallLoad(id, now) => var (m', out) := LoadFrom(m, id, now); [Given(out)] + Drive(m', calls[1..])
      case CallConsume(id, now) => var (m', out) := ConsumeFrom(m, id, now); [Given(out)] + Drive(m', calls[1..])
  }

  /** The answers of the reference store to the same calls. */
  function RefDrive(m: Snapshots, calls: seq<Call>): seq<Answer>
    decreases |calls|
  {
    if |calls| == 0 then []
    else
      match calls[0]
      case CallSave(s) => var (m', err) := SaveIn(m, s); [Stored(err)] + RefDrive(m', calls[1..])
      case CallLoad(id, now) => [Given(RefLoad(m, id, now))] + RefDrive(m, calls[1..])
      case CallConsume(id, now) =>
        var out := RefConsume(m, id, now);
        [Given(out)] + RefDrive(if out.Ok? then m[id := out.value] else m, calls[1..])
  }

  predicate Timed(c: Call) {
    !c.CallSave?
  }

  /** The clock, as the calls read it, starts at `from` or later and never goes back. */
  ghost predicate Monotone(calls: seq<Call>, from: int) {
    && (forall i :: 0 <= i < |calls| && Timed(calls[i]) ==> from <= calls[i].now)
    && (forall i, j :: 0 <= i < j < |calls| && Timed(calls[i]) && Timed(calls[j]) ==> calls[i].now <= calls[j].now)
  }

  /** The store holds what the reference holds, except records that expired by `now`. */
  ghost predicate Agrees(m: Snapshots, ref: Snapshots, now: int) {
    && (forall id :: id in m ==> id in ref && m[id] == ref[id])
    && (forall id :: id in ref && id !in m ==> ref[id].expiresAt <= now)
  }

  /** One call on agreeing stores: the same answer, and they still agree. */
  lemma ConsumeAgrees(m: Snapshots, ref: Snapshots, id: Bytes, now: int)
    requires Agrees(m, ref, now)
    ensures LoadFrom(m, id, now).1 == RefLoad(ref, id, now) && Agrees(LoadFrom(m, id, now).0, ref, now)
    ensures var out := RefConsume(ref, id, now);
            && ConsumeFrom(m, id, now).1 == out
            && Agrees(ConsumeFrom(m, id, now).0, if out.Ok? then ref[id := out.value] else ref, now)
  {
  }

  /** Lazy eviction cannot be observed under a monotone clock, over any sequence of calls. */
  lemma {:induction false} EvictionInvisible(m: Snapshots, ref: Snapshots, calls: seq<Call>, from: int)
    requires Agrees(m, ref, from) && Monotone(calls, from)
    ensures Drive(m, calls) == RefDrive(ref, calls)
    decreases |calls|
  {
    if |calls| == 0 {
    } else {
      var rest := calls[1..];
      match calls[0]
      case CallSave(s) =>
        EvictionInvisible(SaveIn(m, s).0, SaveIn(ref, s).0, rest, from);
      case CallLoad(id, now) =>
        ConsumeAgrees(m, ref, id, now);
        assert Monotone(rest, now);
        EvictionInvisible(LoadFrom(m, id, now).0, ref, rest, now);
      case CallConsume(id, now) =>
        ConsumeAgrees(m, ref, id, now);
        assert Monotone(rest, now);
        var out := RefConsume(ref, id, now);
        EvictionInvisible(ConsumeFrom(m, id, now).0, if out.Ok? then ref[id := out.value] else ref, rest, now);
    }
  }

  // ---- Exactly when eviction shows.

  function RefStep(ref: Snapshots, c: Call): Snapshots {
    match c
    case CallSave(s) => SaveIn(ref, s).0
    case CallLoad(_, _) => ref
    case CallConsume(id, now) =>
      var out := RefConsume(ref, id, now);
      if out.Ok? then ref[id := out.value] else ref
  }

  /** What the reference store holds after some calls. */
  function RefAfter(ref: Snapshots, calls: seq<Call>): Snapshots
    decreases |calls|
  {
    if |calls| == 0 then ref else RefAfter(RefStep(ref, calls[0]), calls[1..])
  }

  /** A read of a record after its expiry: the store deletes it. */
  predicate ReadsExpired(ref: Snapshots, c: Call) {
    Timed(c) && c.id in ref && ref[c.id].expiresAt <= c.now
  }

  predicate ReadsLive(ref: Snapshots, c: Call) {
    Timed(c) && c.id in ref && c.now < ref[c.id].expiresAt
  }

  predicate Saves(c: Call, id: Bytes) {
    c.CallSave? && c.s.id == id && id != []
  }

  /** The `j`-th call reads `id` before its expiry, although the `i`-th had read it after its
      expiry, and `id` was not saved between. */
  ghost predicate Rewinds(ref: Snapshots, calls: seq<Call>, id: Bytes, i: nat, j: nat) {
    && i < j < |calls|
    && ReadsExpired(RefAfter(ref, calls[..i]), calls[i]) && calls[i].id == id
    && MissesAt(ref, calls, id, j) && forall k :: i <= k < j ==> !Saves(calls[k], id)
  }

  ghost predicate MissesAt(ref: Snapshots, calls: seq<Call>, id: Bytes, j: nat) {
    j < |calls| && ReadsLive(RefAfter(ref, calls[..j]), calls[j]) && calls[j].id == id
  }

  /** The `j`-th call reads, before its expiry, an id that was already deleted at the start. */
  ghost predicate MissesGone(ref: Snapshots, gone: set<Bytes>, calls: seq<Call>, id: Bytes, j: nat) {
    id in gone && MissesAt(ref, calls, id, j) && forall k :: 0 <= k < j ==> !Saves(calls[k], id)
  }

  ghost predicate Shows(ref: Snapshots, gone: set<Bytes>, calls: seq<Call>) {
    || (exists id, j: nat :: MissesGone(ref, gone, calls, id, j))
    || (exists id, i: nat, j: nat :: Rewinds(ref, calls, id, i, j))
  }

  /** The deleted ids after a call. */
  function GoneAfter(ref: Snapshots, gone: set<Bytes>, c: Call): set<Bytes> {
    if c.CallSave? then if c.s.id == [] then gone else gone - {c.s.id}
    else if ReadsExpired(ref, c) then gone + {c.id} else gone
  }

  lemma ShiftsBack(ref: Snapshots, calls: seq<Call>, j: nat)
    requires 0 < j <= |calls|
    ensures RefAfter(ref, calls[..j]) == RefAfter(RefStep(ref, calls[0]), calls[1..][..j - 1])
  {
    assert calls[..j][1..] == calls[1..][..j - 1];
  }

  lemma MissShowsLater(ref: Snapshots, gone: set<Bytes>, calls: seq<Call>, id: Bytes, j: nat)
    requires |calls| > 0
    requires MissesGone(RefStep(ref, calls[0]), GoneAfter(ref, gone, calls[0]), calls[1..], id, j)
    ensures Shows(ref, gone, calls)
  {
    ShiftsBack(ref, calls, j + 1);
    assert forall k :: 1 <= k < j + 1 ==> calls[k] == calls[1..][k - 1];
    if id in gone {
      assert MissesGone(ref, gone, calls, id, j + 1);
    } else {
      assert calls[..0] == [];
      assert Rewinds(ref, calls, id, 0, j + 1);
    }
  }

  lemma ShowsLater(ref: Snapshots, gone: set<Bytes>, calls: seq<Call>)
    requires |calls| > 0
    requires Shows(RefStep(ref, calls[0]), GoneAfter(ref, gone, calls[0]), calls[1..])
    ensures Shows(ref, gone, calls)
  {
    var rest, ref' := calls[1..], RefStep(ref, calls[0]);
    if id, j: nat :| MissesGone(ref', GoneAfter(ref, gone, calls[0]), rest, id, j) {
      MissShowsLater(ref, gone, calls, id, j);
    } else {
      var id, i: nat, j: nat :| Rewinds(ref', rest, id, i, j);
      RewindsLater(ref, calls, id, i, j);
    }
  }

  lemma RewindsLater(ref: Snapshots, calls: seq<Call>, id: Bytes, i: nat, j: nat)
    requires |calls| > 0 && Rewinds(RefStep(ref, calls[0]), calls[1..], id, i, j)
    ensures Rewinds(ref, calls, id, i + 1, j + 1)
  {
    ShiftsBack(ref, calls, i + 1);
    ShiftsBack(ref, calls, j + 1);
    assert forall k :: i + 1 <= k < j + 1 ==> calls[k] == calls[1..][k - 1];
  }

  lemma ShowsNowOrLater(ref: Snapshots, gone: set<Bytes>, calls: seq<Call>)
    requires |calls| > 0 && Shows(ref, gone, calls)
    ensures (ReadsLive(ref, calls[0]) && calls[0].id in gone) ||
            Shows(RefStep(ref, calls[0]), GoneAfter(ref, gone, calls[0]), calls[1..])
  {
    var c, rest := calls[0], calls[1..];
    var ref', gone' := RefStep(ref, c), GoneAfter(ref, gone, c);
    assert calls[..0] == [];
    if id, j: nat :| MissesGone(ref, gone, calls, id, j) {
      if j > 0 {
        ShiftsBack(ref, calls, j);
        assert !Saves(calls[0], id);
        assert MissesGone(ref', gone', rest, id, j - 1);
      }
    } else {
      var id, i: nat, j: nat :| Rewinds(ref, calls, id, i, j);
      ShiftsBack(ref, calls, j);
      assert forall k :: 0 <= k < |rest| ==> rest[k] == calls[k + 1];
      if i == 0 {
        assert MissesGone(ref', gone', rest, id, j - 1);
      } else {
        ShiftsBack(ref, calls, i);
        assert Rewinds(ref', rest, id, i - 1, j - 1);
      }
    }
  }

  /** One call on a store that lacks the deleted ids: a different answer exactly when it reads one
      of them before its expiry; otherwise the store then lacks exactly the ids deleted by then. */
  lemma CallShowsIff(ref: Snapshots, gone: set<Bytes>, c: Call)
    requires Timed(c)
    ensures (LoadFrom(ref - gone, c.id, c.now).1 == RefLoad(ref, c.id, c.now)) <==> !(ReadsLive(ref, c) && c.id in gone)
    ensures (ConsumeFrom(ref - gone, c.id, c.now).1 == RefConsume(ref, c.id, c.now)) <==>
            !(ReadsLive(ref, c) && c.id in gone)
    ensures !(ReadsLive(ref, c) && c.id in gone) ==>
              && (c.CallLoad? ==> LoadFrom(ref - gone, c.id, c.now).0 == RefStep(ref, c) - GoneAfter(ref, gone, c))
              && (c.CallConsume? ==>
                    ConsumeFrom(ref - gone, c.id, c.now).0 == RefStep(ref, c) - GoneAfter(ref, gone, c))
  {
  }

  lemma {:induction false} ShowsIff(ref: Snapshots, gone: set<Bytes>, calls: seq<Call>)
    ensures Drive(ref - gone, calls) != RefDrive(ref, calls) <==> Shows(ref, gone, calls)
    decreases |calls|
  {
    if |calls| == 0 {
      assert !Shows(ref, gone, calls);
    } else {
      var c, rest := calls[0], calls[1..];
      var ref', gone' := RefStep(ref, c), GoneAfter(ref, gone, c);
      assert calls[..0] == [];
      if Timed(c) { CallShowsIff(ref, gone, c); }
      if Timed(c) && ReadsLive(ref, c) && c.id in gone {
        assert MissesGone(ref, gone, calls, c.id, 0);
        assert Drive(ref - gone, calls)[0] != RefDrive(ref, calls)[0];
      } else {
        if c.CallSave? { assert SaveIn(ref - gone, c.s).0 == ref' - gone'; }
        ShowsIff(ref', gone', rest);
        SameHead(ref, gone, calls);
        if Shows(ref', gone', rest) { ShowsLater(ref, gone, calls); }
        if Shows(ref, gone, calls) { ShowsNowOrLater(ref, gone, calls); }
      }
    }
  }

  lemma SameHead(ref: Snapshots, gone: set<Bytes>, calls: seq<Call>)
    requires |calls| > 0 && !(ReadsLive(ref, calls[0]) && calls[0].id in gone)
    ensures var rest := calls[1..];
            var m', ref' := RefStep(ref, calls[0]) - GoneAfter(ref, gone, calls[0]), RefStep(ref, calls[0]);
            Drive(ref - gone, calls) == RefDrive(ref, calls) <==> Drive(m', rest) == RefDrive(ref', rest)
  {
    var c, rest := calls[0], calls[1..];
    if Timed(c) {
      CallShowsIff(ref, gone, c);
    } else {
      assert SaveIn(ref - gone, c.s).0 == RefStep(ref, c) - GoneAfter(ref, gone, c);
    }
    assert Drive(ref - gone, calls)[0] == RefDrive(ref, calls)[0];
    assert Drive(ref - gone, calls)[1..] == Drive(RefStep(ref, c) - GoneAfter(ref, gone, c), rest);
    assert RefDrive(ref, calls)[1..] == RefDrive(RefStep(ref, c), rest);
  }

  /** Whatever the clock does, the answers of the store differ from those of the never-deleting
      one exactly when some read of an id before its expiry follows one after its expiry, with no
      save of the id between. */
  lemma EvictionVisibleIff(calls: seq<Call>)
    ensures Drive(map[], calls) != RefDrive(map[], calls) <==>
            exists id, i: nat, j: nat :: Rewinds(map[], calls, id, i, j)
  {
    var none: Snapshots := map[];
    assert none - {} == none;
    ShowsIff(none, {}, calls);
  }

  /** With a clock that goes back, eviction shows: the record is gone. */
  lemma EvictionVisibleOnRewind(s: SessionData)
    requires s.id != []
    ensures var calls := [CallSave(s), CallLoad(s.id, s.expiresAt), CallLoad(s.id, s.expiresAt - 1)];
            Drive(map[], calls) != RefDrive(map[], calls)
  {
    var calls := [CallSave(s), CallLoad(s.id, s.expiresAt), CallLoad(s.id, s.expiresAt - 1)];
    var m := map[s.id := s];
    assert calls[1..] == [CallLoad(s.id, s.expiresAt), CallLoad(s.id, s.expiresAt - 1)];
    assert calls[1..][1..] == [CallLoad(s.id, s.expiresAt - 1)];
    assert LoadFrom(m, s.id, s.expiresAt).0 == map[];
    assert Drive(map[], calls[1..][1..])[0] == Given(Err(Is(SessionNotFound)));
    assert RefDrive(m, calls[1..][1..])[0] == Given(Ok(s));
    assert Drive(map[], calls) == [Stored(None), Given(Err(Is(SessionNotFound)))] + Drive(map[], calls[1..][1..]);
    assert RefDrive(map[], calls) == [Stored(None), Given(Err(Is(SessionNotFound)))] + RefDrive(m, calls[1..][1..]);
    assert Drive(map[], calls)[2] != RefDrive(map[], calls)[2];
  }
}
