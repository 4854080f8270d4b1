/** Tokens over whole runs: ids, nonces, states and response codes are encodings of disjoint
    16-byte blocks of the random stream. */
module Freshness {
  import opened GoStrings
  import opened Errors
  import opened Session
  import opened Engine
  import opened Runs
  import opened Protocol
  import Base64url
  import NewSession
  import Response

  function NoteTokens(n: Note): seq<Bytes> {
    match n
    case Born(s) => [s.id, s.nonce, s.state]
    case Accepted(_, _, _, _, _, code) => if code == [] then [] else [code]
    case _ => []
  }

  /** Every token of a run, in the order in which they were drawn. */
  function TokensOf(j: seq<Note>): seq<Bytes> {
    if |j| == 0 then [] else TokensOf(j[..|j| - 1]) + NoteTokens(j[|j| - 1])
  }

  /** `t` encodes a whole block of the stream that was already read. */
  ghost predicate Drawn(tape: Tape, t: Bytes) {
    exists k: nat :: TOKEN_BYTES * (k + 1) <= tape.pos && t == BlockToken(tape.bytes, k)
  }

  /** `tokens` encode the whole blocks `ks` of the part of the stream already read, from left to right. */
  ghost predicate DrawnAs(tape: Tape, tokens: seq<Bytes>, ks: seq<nat>) {
    && |ks| == |tokens|
    && (forall i, j :: 0 <= i < j < |ks| ==> ks[i] < ks[j])
    && (forall i :: 0 <= i < |ks| ==>
          TOKEN_BYTES * (ks[i] + 1) <= tape.pos && tokens[i] == BlockToken(tape.bytes, ks[i]))
  }

  /** The reader stands at the start of a block, or has no whole block left. */
  predicate Aligned(tape: Tape) {
    tape.pos % TOKEN_BYTES == 0 || |tape.bytes| - tape.pos < TOKEN_BYTES
  }

  function Block(bytes: Bytes, k: nat): Bytes
    requires TOKEN_BYTES * (k + 1) <= |bytes|
  {
    bytes[TOKEN_BYTES * k..TOKEN_BYTES * (k + 1)]
  }

  ghost predicate DistinctBlocks(bytes: Bytes) {
    forall k: nat, l: nat :: k < l && TOKEN_BYTES * (l + 1) <= |bytes| ==> Block(bytes, k) != Block(bytes, l)
  }

  /** A freshly drawn token is the next block, and no block read before. */
  lemma NextIsFresh(tape: Tape)
    requires Aligned(tape)
    ensures Aligned(NextToken(tape).0)
    ensures NextToken(tape).1.Ok? ==>
              var k := tape.pos / TOKEN_BYTES;
              && TOKEN_BYTES * k == tape.pos && TOKEN_BYTES * (k + 1) == NextToken(tape).0.pos <= |tape.bytes|
              && NextToken(tape).1.value == BlockToken(tape.bytes, k)
    ensures NextToken(tape).1.Ok? && DistinctBlocks(tape.bytes) ==> !Drawn(tape, NextToken(tape).1.value)
  {
    if NextToken(tape).1.Ok? {
      var k := tape.pos / TOKEN_BYTES;
      var t := NextToken(tape).1.value;
      assert t == BlockToken(tape.bytes, k);
      if DistinctBlocks(tape.bytes) && Drawn(tape, t) {
        var l: nat :| TOKEN_BYTES * (l + 1) <= tape.pos && t == BlockToken(tape.bytes, l);
        Base64url.EncodeInjective(Block(tape.bytes, l), Block(tape.bytes, k));
      }
    }
  }

  /** All tokens so far encode different blocks, in the order of the stream. */
  ghost predicate TokensFresh(tape: Tape, tokens: seq<Bytes>) {
    Aligned(tape) && exists ks: seq<nat> :: DrawnAs(tape, tokens, ks)
  }

  lemma DrawKeepsFresh(tape: Tape, tokens: seq<Bytes>)
    requires TokensFresh(tape, tokens)
    ensures TokensFresh(NextToken(tape).0, tokens)
    ensures NextToken(tape).1.Ok? ==> TokensFresh(NextToken(tape).0, tokens + [NextToken(tape).1.value])
  {
    var (tape', r) := NextToken(tape);
    var ks: seq<nat> :| DrawnAs(tape, tokens, ks);
    NextIsFresh(tape);
    assert DrawnAs(tape', tokens, ks);
    if r.Ok? {
      assert DrawnAs(tape', tokens + [r.value], ks + [tape.pos / TOKEN_BYTES]);
    }
  }

  /** Different blocks with different contents give different tokens. */
  lemma FreshDistinct(tape: Tape, tokens: seq<Bytes>)
    requires TokensFresh(tape, tokens) && DistinctBlocks(tape.bytes)
    ensures Distinct(tokens)
  {
    var ks: seq<nat> :| DrawnAs(tape, tokens, ks);
    forall i, j | 0 <= i < j < |tokens| ensures tokens[i] != tokens[j] {
      assert Block(tape.bytes, ks[i]) != Block(tape.bytes, ks[j]);
      if tokens[i] == tokens[j] {
        Base64url.EncodeInjective(Block(tape.bytes, ks[i]), Block(tape.bytes, ks[j]));
      }
    }
  }

  lemma ThreeDraws(tape: Tape, tokens: seq<Bytes>)
    requires TokensFresh(tape, tokens)
    ensures var (t1, x) := NextToken(tape);
            var (t2, y) := NextToken(t1);
            var (t3, z) := NextToken(t2);
            && TokensFresh(t1, tokens) && TokensFresh(t2, tokens) && TokensFresh(t3, tokens)
            && (x.Ok? && y.Ok? && z.Ok? ==> TokensFresh(t3, tokens + [x.value, y.value, z.value]))
  {
    var (t1, x) := NextToken(tape);
    var (t2, y) := NextToken(t1);
    var (t3, z) := NextToken(t2);
    DrawKeepsFresh(tape, tokens);
    DrawKeepsFresh(t1, tokens);
    DrawKeepsFresh(t2, tokens);
    if x.Ok? && y.Ok? && z.Ok? {
      DrawKeepsFresh(t1, tokens + [x.value]);
      DrawKeepsFresh(t2, tokens + [x.value] + [y.value]);
      assert tokens + [x.value] + [y.value] + [z.value] == tokens + [x.value, y.value, z.value];
    }
  }

  lemma OneNote(j: seq<Note>, n: Note)
    ensures TokensOf(j + [n]) == TokensOf(j) + NoteTokens(n)
  {
    assert (j + [n])[..|j|] == j;
  }

  lemma HandedOutTokens(j: seq<Note>, e: Settings, s: SessionData, now: int)
    ensures TokensOf(j + ([Born(s)] + HandedOut(e, s, now))) == TokensOf(j) + [s.id, s.nonce, s.state]
  {
    OneNote(j, Born(s));
    var out := HandedOut(e, s, now);
    QuietNotes(j + [Born(s)], out);
    assert j + ([Born(s)] + out) == j + [Born(s)] + out;
  }

  lemma CreateKeepsFresh(e: Settings, st: State, spec: NewSession.RequestSpec, key: Option<PrivateKey>)
    requires TokensFresh(st.tape, TokensOf(st.journal))
    ensures var eff := CreateEffect(e, st, spec, key);
            TokensFresh(eff.tape, TokensOf(st.journal + eff.notes))
  {
    var r := NewSession.Create(e, spec, key, st.now, st.tape).1;
    NewSession.CreateDraws(e, spec, key, st.now, st.tape);
    ThreeDraws(st.tape, TokensOf(st.journal));
    if r.Ok? {
      HandedOutTokens(st.journal, e, r.value.session, st.now);
    } else {
      assert st.journal + [] == st.journal;
    }
  }

  lemma AcceptKeepsFresh(tape: Tape, tape': Tape, j: seq<Note>, n: Note)
    requires TokensFresh(tape, TokensOf(j)) && n.Accepted?
    requires if n.code == [] then tape' == tape else NextToken(tape) == (tape', Ok(n.code))
    ensures TokensFresh(tape', TokensOf(j + [n]))
  {
    DrawKeepsFresh(tape, TokensOf(j));
    OneNote(j, n);
    assert TokensOf(j) + [] == TokensOf(j);
  }

  lemma RespondKeepsFresh(e: Settings, st: State, s: SessionData, body: Bytes)
    requires TokensFresh(st.tape, TokensOf(st.journal))
    ensures var eff := RespondEffect(e, st, s, body);
            TokensFresh(eff.tape, TokensOf(st.journal + eff.notes))
  {
    var (_, t, r) := Response.Respond(e, s, st.now, body, st.tape);
    if r.Ok? {
      Response.RespondLeaves(e, s, st.now, body, st.tape);
      var n := Accepted(s, |st.history|, false, [], r.value.presentations, r.value.code);
      AcceptKeepsFresh(st.tape, t, st.journal, n);
    } else {
      DrawKeepsFresh(st.tape, TokensOf(st.journal));
      assert st.journal + [] == st.journal;
    }
  }

  lemma StepKeepsFresh(e: Settings, st: State, step: Step)
    requires TokensFresh(st.tape, TokensOf(st.journal)) && Enabled(st, step)
    ensures TokensFresh(Take(e, st, step).tape, TokensOf(Take(e, st, step).journal))
  {
    if step.OnEngine? { EffectKeepsFresh(e, st, step.engine); }
  }

  lemma EffectKeepsFresh(e: Settings, st: State, step: EngineStep)
    requires TokensFresh(st.tape, TokensOf(st.journal)) && EngineEnabled(st, step)
    ensures var eff := EffectOf(e, st, step);
            TokensFresh(eff.tape, TokensOf(st.journal + eff.notes))
  {
    match step
    case Create(_, spec, key) => CreateKeepsFresh(e, st, spec, key);
    case Respond(h, body) => RespondKeepsFresh(e, st, st.copies[h], body);
    case _ => QuietNotes(st.journal, EffectOf(e, st, step).notes);
  }

  lemma QuietNotes(j: seq<Note>, notes: seq<Note>)
    requires |notes| <= 1 && (|notes| == 1 ==> NoteTokens(notes[0]) == [])
    ensures TokensOf(j + notes) == TokensOf(j)
  {
    if |notes| == 1 { assert (j + notes)[..|j|] == j; } else { assert j + notes == j; }
  }

  /** In every run, the tokens of all sessions encode disjoint blocks of the stream, in the order
      in which they were drawn. */
  lemma {:induction false} RunTokensFresh(e: Settings, bytes: Bytes, start: int, steps: seq<Step>, st: State)
    requires Reaches(e, bytes, start, steps, st)
    ensures st.tape.bytes == bytes && TokensFresh(st.tape, TokensOf(st.journal))
    decreases |steps|
  {
    if |steps| == 0 {
      assert DrawnAs(st.tape, [], []);
    } else {
      var prev :| Reaches(e, bytes, start, Front(steps), prev) && Steps(e, prev, Last(steps), st);
      RunTokensFresh(e, bytes, start, Front(steps), prev);
      StepKeepsFresh(e, prev, Last(steps));
      StepKeepsStream(e, prev, Last(steps));
    }
  }

  lemma StepKeepsStream(e: Settings, st: State, step: Step)
    requires Enabled(st, step)
    ensures Take(e, st, step).tape.bytes == st.tape.bytes
  {
  }

  lemma {:induction false} TokensIn(j: seq<Note>, i: nat, t: Bytes)
    requires i < |j| && t in NoteTokens(j[i])
    ensures t in TokensOf(j)
  {
    if i < |j| - 1 { TokensIn(j[..|j| - 1], i, t); }
  }

  lemma Overlap(a: seq<Bytes>, b: seq<Bytes>, t: Bytes)
    requires t in a && t in b
    ensures !Distinct(a + b)
  {
    var x :| 0 <= x < |a| && a[x] == t;
    var y :| 0 <= y < |b| && b[y] == t;
    assert (a + b)[x] == (a + b)[|a| + y];
  }

  /** With distinct tokens, one token belongs to one note. */
  lemma {:induction false} OneOwner(j: seq<Note>, i: nat, k: nat, t: Bytes)
    requires Distinct(TokensOf(j)) && i < |j| && k < |j|
    requires t in NoteTokens(j[i]) && t in NoteTokens(j[k])
    ensures i == k
  {
    if i > k {
      OneOwner(j, k, i, t);
    } else if i < k {
      var init, last := j[..|j| - 1], NoteTokens(j[|j| - 1]);
      assert TokensOf(j) == TokensOf(init) + last;
      if k < |j| - 1 {
        assert Distinct(TokensOf(init)) by {
          forall x, y | 0 <= x < y < |TokensOf(init)| ensures TokensOf(init)[x] != TokensOf(init)[y] {
            assert TokensOf(j)[x] == TokensOf(init)[x] && TokensOf(j)[y] == TokensOf(init)[y];
          }
        }
        OneOwner(init, i, k, t);
      } else {
        TokensIn(init, i, t);
        Overlap(TokensOf(init), last, t);
      }
    }
  }
}
