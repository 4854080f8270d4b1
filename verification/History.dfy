/** Histories of store calls, in the order in which they took effect, and what every legal
    history guarantees about consumption. */
module History {
  import opened GoStrings
  import opened Errors
  import opened Session
  import opened MemStore

  /** A call that took effect; `Tried` is a `ConsumeOnce`, `at` the clock as the call read it. */
  datatype Event =
    | Saved(s: SessionData)
    | Loaded(id: Bytes, at: int, out: Result<SessionData>)
    | Tried(id: Bytes, at: int, out: Result<SessionData>)

  /** A `ConsumeOnce(id)` that succeeded. */
  predicate IsWin(ev: Event, id: Bytes) {
    ev.Tried? && ev.id == id && ev.out.Ok?
  }

  /** A `Save` of a copy of `id` that carries `Consumed=false`. */
  predicate IsFreshSave(ev: Event, id: Bytes) {
    ev.Saved? && ev.s.id == id && !ev.s.consumed
  }

  predicate IsConsumedSave(ev: Event, id: Bytes) {
    ev.Saved? && ev.s.id == id && ev.s.consumed
  }

  predicate IsWrite(ev: Event, id: Bytes) {
    (ev.Saved? && ev.s.id == id) || IsWin(ev, id)
  }

  function Written(ev: Event, id: Bytes): SessionData
    requires IsWrite(ev, id)
  {
    if ev.Saved? then ev.s else ev.out.value
  }

  /** The reference store after a history: what a plain map that never deletes would hold. */
  function Ref(h: seq<Event>): Snapshots {
    if |h| == 0 then map[]
    else
      var m, ev := Ref(h[..|h| - 1]), h[|h| - 1];
      match ev
      case Saved(s) => m[s.id := s]
      case Loaded(_, _, _) => m
      case Tried(id, _, out) => if out.Ok? then m[id := out.value] else m
  }

  /** No call of the history read the clock later than `t`. */
  ghost predicate PastBefore(h: seq<Event>, t: int) {
    forall i :: 0 <= i < |h| && !h[i].Saved? ==> h[i].at <= t
  }

  ghost predicate LegalNext(h: seq<Event>, ev: Event) {
    match ev
    case Saved(s) => s.id != []
    case Loaded(id, at, out) => PastBefore(h, at) && out == RefLoad(Ref(h), id, at)
    case Tried(id, at, out) => PastBefore(h, at) && out == RefConsume(Ref(h), id, at)
  }

  /** Every call answered what the reference store would have answered at its point, and the
      clock readings never went back. */
  ghost predicate Legal(h: seq<Event>) {
    |h| > 0 ==> Legal(h[..|h| - 1]) && LegalNext(h[..|h| - 1], h[|h| - 1])
  }

  lemma {:induction false} LegalPrefix(h: seq<Event>, k: nat)
    requires Legal(h) && k <= |h|
    ensures Legal(h[..k])
    ensures k < |h| ==> LegalNext(h[..k], h[k])
  {
    if k < |h| {
      var init := h[..|h| - 1];
      if k < |init| {
        LegalPrefix(init, k);
        assert init[..k] == h[..k];
      }
    } else {
      assert h[..k] == h;
    }
  }

  function Wins(h: seq<Event>, id: Bytes): nat {
    if |h| == 0 then 0 else Wins(h[..|h| - 1], id) + if IsWin(h[|h| - 1], id) then 1 else 0
  }

  function FreshSaves(h: seq<Event>, id: Bytes): nat {
    if |h| == 0 then 0 else FreshSaves(h[..|h| - 1], id) + if IsFreshSave(h[|h| - 1], id) then 1 else 0
  }

  ghost predicate Won(h: seq<Event>, id: Bytes) {
    exists i :: 0 <= i < |h| && IsWin(h[i], id)
  }

  lemma {:induction false} WonCounts(h: seq<Event>, id: Bytes)
    ensures Won(h, id) <==> Wins(h, id) > 0
  {
    if |h| == 0 {
    } else {
      var init := h[..|h| - 1];
      WonCounts(init, id);
      if i :| 0 <= i < |init| && IsWin(init[i], id) { assert IsWin(h[i], id); }
      if j :| 0 <= j < |h| && IsWin(h[j], id) {
        if j < |init| { assert IsWin(init[j], id); }
      }
    }
  }

  /** Successful consumptions never exceed the saves that carry `Consumed=false`; while the
      reference holds an unconsumed record, one such save is still unspent. */
  lemma {:induction false} CountingBound(h: seq<Event>, id: Bytes)
    requires Legal(h)
    ensures Wins(h, id) + (if id in Ref(h) && !Ref(h)[id].consumed then 1 else 0) <= FreshSaves(h, id)
  {
    if |h| == 0 {
    } else {
      CountingBound(h[..|h| - 1], id);
    }
  }

  /** The index of the last event that wrote `id`. */
  ghost predicate LastWrite(h: seq<Event>, id: Bytes, i: nat) {
    i < |h| && IsWrite(h[i], id) && forall k :: i < k < |h| ==> !IsWrite(h[k], id)
  }

  lemma {:induction false} RefIsLastWrite(h: seq<Event>, id: Bytes)
    ensures id in Ref(h) <==> exists i: nat :: LastWrite(h, id, i)
    ensures forall i: nat :: LastWrite(h, id, i) ==> id in Ref(h) && Ref(h)[id] == Written(h[i], id)
  {
    if |h| == 0 {
    } else {
      var n := |h| - 1;
      var init := h[..n];
      RefIsLastWrite(init, id);
      if IsWrite(h[n], id) {
        assert LastWrite(h, id, n);
      } else {
        forall i: nat ensures LastWrite(h, id, i) <==> LastWrite(init, id, i) {
          if i < n { assert init[i] == h[i]; }
        }
      }
    }
  }

  /** What a load gives is what the last write of the id wrote, unless that has expired; otherwise, not found. */
  lemma LoadGivesLastWrite(h: seq<Event>, id: Bytes, at: int, s: SessionData)
    ensures RefLoad(Ref(h), id, at) == Ok(s) <==>
              exists i: nat :: LastWrite(h, id, i) && Written(h[i], id) == s && at < s.expiresAt
    ensures RefLoad(Ref(h), id, at).Err? ==> RefLoad(Ref(h), id, at).error == Is(SessionNotFound)
  {
    RefIsLastWrite(h, id);
  }

  /** Exactly when the next `ConsumeOnce` succeeds: the last write of `id` is a save with
      `Consumed=false`, and the clock is before that copy's expiry; that copy, marked, is what it gives.
      After a success this says that another success needs such a save after it: the caller discipline.
      It gets the consumed error exactly when the last write is an unexpired consumed copy. */
  lemma AttemptIff(h: seq<Event>, id: Bytes, at: int)
    requires Legal(h)
    ensures RefConsume(Ref(h), id, at).Ok? <==>
              exists i: nat :: LastWrite(h, id, i) && IsFreshSave(h[i], id) && at < h[i].s.expiresAt
    ensures forall i: nat :: LastWrite(h, id, i) && RefConsume(Ref(h), id, at).Ok? ==>
              RefConsume(Ref(h), id, at).value == Written(h[i], id).(consumed := true)
    ensures RefConsume(Ref(h), id, at) == Err(Is(SessionConsumed)) <==>
              exists i: nat :: LastWrite(h, id, i) && Written(h[i], id).consumed && at < Written(h[i], id).expiresAt
    ensures RefConsume(Ref(h), id, at).Err? ==>
              RefConsume(Ref(h), id, at).error in [Is(SessionConsumed), Is(SessionNotFound)]
  {
    RefIsLastWrite(h, id);
    if i: nat :| LastWrite(h, id, i) {
      WinsAreConsumed(h, i, id);
    }
  }

  lemma WinsAreConsumed(h: seq<Event>, i: nat, id: Bytes)
    requires Legal(h) && i < |h|
    ensures IsWin(h[i], id) ==> h[i].out.value.consumed
  {
    LegalPrefix(h, i);
  }

  /** Once consumed, and as long as no copy with `Consumed=false` is saved again, every later
      `ConsumeOnce` fails: with the consumed error before the stored expiry, not found after it. */
  lemma Sticky(h: seq<Event>, id: Bytes, won: nat, k: nat)
    requires Legal(h) && won < k < |h|
    requires IsWin(h[won], id) && (forall j :: won < j < |h| ==> !IsFreshSave(h[j], id))
    requires h[k].Tried? && h[k].id == id
    ensures id in Ref(h[..k])
    ensures h[k].out == Err(Is(if h[k].at < Ref(h[..k])[id].expiresAt then SessionConsumed else SessionNotFound))
  {
    LegalPrefix(h, k);
    StaysConsumed(h, id, won, k);
  }

  lemma {:induction false} StaysConsumed(h: seq<Event>, id: Bytes, won: nat, k: nat)
    requires Legal(h) && won < k <= |h|
    requires IsWin(h[won], id) && (forall j :: won < j < |h| ==> !IsFreshSave(h[j], id))
    ensures id in Ref(h[..k]) && Ref(h[..k])[id].consumed
  {
    LegalPrefix(h, k - 1);
    assert h[..k][..k - 1] == h[..k - 1];
    if k - 1 > won { StaysConsumed(h, id, won, k - 1); }
  }

  /** Without the discipline the marker is not sticky: a handler that loaded the session before
      it was consumed and saves its copy afterwards makes a second success possible. */
  lemma StaleSaveRevives(s: SessionData)
    requires s.id != [] && !s.consumed && 0 < s.expiresAt
    ensures var won := s.(consumed := true);
            var calls := [CallSave(s), CallLoad(s.id, 0), CallConsume(s.id, 0), CallSave(s), CallConsume(s.id, 0)];
            Drive(map[], calls) == [Stored(None), Given(Ok(s)), Given(Ok(won)), Stored(None), Given(Ok(won))]
  {
    var won := s.(consumed := true);
    var c1, c2, c3, c4 := CallLoad(s.id, 0), CallConsume(s.id, 0), CallSave(s), CallConsume(s.id, 0);
    var m := map[s.id := s];
    var m' := m[s.id := won];
    assert m'[s.id := s] == m;
    assert [c4][1..] == [];
    assert Drive(m, [c4]) == [Given(Ok(won))] + Drive(m', []);
    assert [c3, c4][1..] == [c4];
    assert Drive(m', [c3, c4]) == [Stored(None)] + Drive(m, [c4]);
    assert [c2, c3, c4][1..] == [c3, c4];
    assert Drive(m, [c2, c3, c4]) == [Given(Ok(won))] + Drive(m', [c3, c4]);
    assert [c1, c2, c3, c4][1..] == [c2, c3, c4];
    assert Drive(m, [c1, c2, c3, c4]) == [Given(Ok(s))] + Drive(m, [c2, c3, c4]);
    assert [c3, c1, c2, c3, c4][1..] == [c1, c2, c3, c4];
    assert Drive(map[], [c3, c1, c2, c3, c4]) == [Stored(None)] + Drive(m, [c1, c2, c3, c4]);
  }

  /** The outcomes of the `ConsumeOnce(id)` calls since the last save with `Consumed=false`. */
  function Outcomes(h: seq<Event>, id: Bytes): seq<Result<SessionData>> {
    if |h| == 0 then []
    else
      var ev := h[|h| - 1];
      if IsFreshSave(ev, id) then []
      else if ev.Tried? && ev.id == id then Outcomes(h[..|h| - 1], id) + [ev.out]
      else Outcomes(h[..|h| - 1], id)
  }

  /** One winner, who comes first, and a consumed error for everyone else. */
  ghost predicate FirstWins(outs: seq<Result<SessionData>>) {
    |outs| > 0 ==> outs[0].Ok? && forall k :: 0 < k < |outs| ==> outs[k] == Err(Is(SessionConsumed))
  }

  /** Consumed copies are saved only after a consumption. */
  ghost predicate ConsumedSavesFollowWins(h: seq<Event>, id: Bytes) {
    forall i :: 0 <= i < |h| && IsConsumedSave(h[i], id) ==> Won(h[..i], id)
  }

  /** No saved copy of `id` expires by `t`. */
  ghost predicate SavesOutlive(h: seq<Event>, id: Bytes, t: int) {
    forall i :: 0 <= i < |h| && h[i].Saved? && h[i].s.id == id ==> t < h[i].s.expiresAt
  }

  lemma PrefixKeeps(h: seq<Event>, id: Bytes, t: int)
    requires |h| > 0 && Legal(h) && PastBefore(h, t) && SavesOutlive(h, id, t) && ConsumedSavesFollowWins(h, id)
    ensures var init := h[..|h| - 1];
            Legal(init) && PastBefore(init, t) && SavesOutlive(init, id, t) && ConsumedSavesFollowWins(init, id)
  {
    var init := h[..|h| - 1];
    forall i | 0 <= i < |init| && IsConsumedSave(init[i], id) ensures Won(init[..i], id) {
      assert IsConsumedSave(h[i], id) && init[..i] == h[..i];
    }
    forall i | 0 <= i < |init| && !init[i].Saved? ensures init[i].at <= t { assert init[i] == h[i]; }
    forall i | 0 <= i < |init| && init[i].Saved? && init[i].s.id == id ensures t < init[i].s.expiresAt {
      assert init[i] == h[i];
    }
  }

  /** With one save that carries `Consumed=false` and a clock before expiry, however many callers
      race, exactly the first to take effect wins and every other one gets the consumed error,
      also after later saves of consumed copies. */
  lemma {:induction false} OneWinner(h: seq<Event>, id: Bytes, t: int)
    requires Legal(h) && FreshSaves(h, id) <= 1
    requires PastBefore(h, t) && SavesOutlive(h, id, t) && ConsumedSavesFollowWins(h, id)
    ensures FreshSaves(h, id) == 0 ==> id !in Ref(h)
    ensures FreshSaves(h, id) == 1 ==>
              && id in Ref(h) && t < Ref(h)[id].expiresAt
              && (Ref(h)[id].consumed <==> |Outcomes(h, id)| > 0)
              && FirstWins(Outcomes(h, id))
              && Wins(h, id) == (if |Outcomes(h, id)| > 0 then 1 else 0)
  {
    if |h| == 0 {
    } else {
      var init, ev := h[..|h| - 1], h[|h| - 1];
      PrefixKeeps(h, id, t);
      OneWinner(init, id, t);
      CountingBound(init, id);
      WonCounts(init, id);
      if IsConsumedSave(ev, id) { assert IsConsumedSave(h[|h| - 1], id); assert Won(init, id); }
      if ev.Saved? && ev.s.id == id { assert t < h[|h| - 1].s.expiresAt; }
    }
  }
}
