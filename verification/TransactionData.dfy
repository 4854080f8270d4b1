/** transaction_data hashes and the comparison with what the wallet echoes. */
module TransactionData {
  import opened GoStrings
  import opened Errors
  import opened Session
  import opened Engine
  import Base64url
  import RequestObject

  function HashOf(lib: Library, alg: Bytes, entry: Bytes): Bytes {
    Base64url.Encode(lib.digest(alg, Base64url.Encode(entry)))
  }

  /** The hash of every entry, in the order of the request. */
  function Hashes(lib: Library, alg: Bytes, td: seq<Bytes>): seq<Bytes> {
    seq(|td|, i requires 0 <= i < |td| => HashOf(lib, alg, td[i]))
  }

  method TransactionDataHashes(lib: Library, td: seq<Bytes>, alg: Bytes) returns (r: Result<seq<Bytes>>)
    ensures r == if lib.allowsAlg(alg) then Ok(Hashes(lib, alg, td)) else Err(Foreign)
    ensures r.Ok? ==> |r.value| == |td|
    ensures r.Ok? ==>
              forall i :: 0 <= i < |td| ==> r.value[i] == Base64url.Encode(lib.digest(alg, Base64url.Encode(td[i])))
  {
    if !lib.allowsAlg(alg) { return Err(Foreign); }
    var out := new Bytes[|td|](i => []);
    for i := 0 to |td|
      invariant forall k :: 0 <= k < i ==> out[k] == HashOf(lib, alg, td[k])
    {
      var enc := Base64url.Encode(td[i]);
      out[i] := Base64url.Encode(lib.digest(alg, enc));
    }
    assert |out[..]| == |td| && forall k :: 0 <= k < |td| ==> out[..][k] == HashOf(lib, alg, td[k]);
    assert out[..] == Hashes(lib, alg, td);
    return Ok(out[..]);
  }

  /** What the echo check must answer: `None` is success. The echo of present entries is accepted
      exactly when it holds the same hashes the same number of times. */
  ghost function EchoVerdict(e: Settings, td: seq<Bytes>, echoed: seq<Bytes>, alg: Bytes): Option<Error> {
    if |td| == 0 then if |echoed| > 0 then Some(Is(TransactionDataUnexpected)) else None
    else if !e.cfg.enableTransactionData then Some(Is(TransactionDataDisabled))
    else if |echoed| == 0 then Some(Is(TransactionDataMissing))
    else if !e.lib.allowsAlg(alg) then Some(Foreign)
    else if multiset(Hashes(e.lib, alg, td)) == multiset(echoed) then None
    else Some(Is(TransactionDataMismatch))
  }

  /** What a conforming wallet sends for the transaction_data strings of a request: the encoded digest of each
      string, in any order. */
  ghost predicate IsEcho(lib: Library, alg: Bytes, strings: seq<Bytes>, echoed: seq<Bytes>) {
    multiset(echoed) ==
    multiset(seq(|strings|, i requires 0 <= i < |strings| => Base64url.Encode(lib.digest(alg, strings[i]))))
  }

  /** For every request that describes the session and carries transaction_data, request objects and DCAPI
      requests alike, exactly the conforming echoes are accepted. */
  lemma HonestEchoIff(e: Settings, s: SessionData, q: Request, echoed: seq<Bytes>, alg: Bytes)
    requires RequestObject.Describes(e, s, q) && q.transactionData.Some? && e.lib.allowsAlg(alg)
    ensures EchoVerdict(e, s.transactionData, echoed, alg).None? <==>
            IsEcho(e.lib, alg, q.transactionData.value, echoed)
  {
    var strings := q.transactionData.value;
    var hashes := seq(|strings|, i requires 0 <= i < |strings| => Base64url.Encode(e.lib.digest(alg, strings[i])));
    assert hashes == Hashes(e.lib, alg, s.transactionData);
    if IsEcho(e.lib, alg, strings, echoed) { assert |multiset(echoed)| == |multiset(hashes)|; }
  }

  /** A request without transaction_data: the empty echo is accepted when the session has no entries,
      and the session is refused when it has some. */
  lemma NoEchoIff(e: Settings, s: SessionData, q: Request, echoed: seq<Bytes>, alg: Bytes)
    requires RequestObject.Describes(e, s, q) && q.transactionData.None?
    ensures EchoVerdict(e, s.transactionData, echoed, alg).None? <==> s.transactionData == [] && echoed == []
  {
  }

  /** Which error a refused echo gets: the whole present, absent, mismatch matrix. */
  lemma EchoComplains(e: Settings, td: seq<Bytes>, echoed: seq<Bytes>, alg: Bytes)
    ensures td == [] && echoed != [] ==> EchoVerdict(e, td, echoed, alg) == Some(Is(TransactionDataUnexpected))
    ensures td != [] && !e.cfg.enableTransactionData ==>
              EchoVerdict(e, td, echoed, alg) == Some(Is(TransactionDataDisabled))
    ensures td != [] && e.cfg.enableTransactionData && echoed == [] ==>
              EchoVerdict(e, td, echoed, alg) == Some(Is(TransactionDataMissing))
    ensures td != [] && e.cfg.enableTransactionData && echoed != [] ==>
              if !e.lib.allowsAlg(alg) then EchoVerdict(e, td, echoed, alg) == Some(Foreign)
              else
                || EchoVerdict(e, td, echoed, alg).None?
                || EchoVerdict(e, td, echoed, alg) == Some(Is(TransactionDataMismatch))
  {
  }

  function CountOf(remaining: map<Bytes, nat>, h: Bytes): nat {
    if h in remaining then remaining[h] else 0
  }

  method ValidateTransactionDataEcho(e: Engine, s: Session?, echoed: seq<Bytes>, alg: Bytes)
    returns (err: Option<Error>)
    ensures s == null ==> err == Some(Is(SessionInvalid))
    ensures s != null ==> err == EchoVerdict(e.setup, s.transactionData, echoed, alg)
  {
    if s == null { return Some(Is(SessionInvalid)); }
    if |s.transactionData| > 0 && !e.setup.cfg.enableTransactionData { return Some(Is(TransactionDataDisabled)); }
    if |s.transactionData| == 0 {
      if |echoed| > 0 { return Some(Is(TransactionDataUnexpected)); }
      return None;
    }
    if |echoed| == 0 { return Some(Is(TransactionDataMissing)); }
    var want := TransactionDataHashes(e.setup.lib, s.transactionData, alg);
    if want.Err? { return Some(want.error); }
    if |want.value| != |echoed| {
      assert |multiset(want.value)| != |multiset(echoed)|;
      return Some(Is(TransactionDataMismatch));
    }
    var same := SameCounts(want.value, echoed);
    return if same then None else Some(Is(TransactionDataMismatch));
  }

  /** The counters: incremented over the wanted hashes, decremented over the echoed ones. */
  method SameCounts(want: seq<Bytes>, echoed: seq<Bytes>) returns (same: bool)
    requires |want| == |echoed|
    ensures same <==> multiset(want) == multiset(echoed)
  {
    var remaining: map<Bytes, nat> := map[];
    for i := 0 to |want|
      invariant forall h :: CountOf(remaining, h) == multiset(want[..i])[h]
    {
      assert want[..i + 1] == want[..i] + [want[i]];
      remaining := remaining[want[i] := CountOf(remaining, want[i]) + 1];
    }
    assert want[..|want|] == want;
    for i := 0 to |echoed|
      invariant forall h :: CountOf(remaining, h) + multiset(echoed[..i])[h] == multiset(want)[h]
    {
      assert echoed[..i + 1] == echoed[..i] + [echoed[i]];
      if CountOf(remaining, echoed[i]) == 0 {
        OneTooMany(multiset(want), echoed, i);
        return false;
      }
      remaining := remaining[echoed[i] := CountOf(remaining, echoed[i]) - 1];
    }
    assert echoed[..|echoed|] == echoed;
    assert multiset(echoed) <= multiset(want);
    SubmultisetOfSameSize(multiset(echoed), multiset(want));
    return true;
  }

  lemma OneTooMany<T>(want: multiset<T>, echoed: seq<T>, i: nat)
    requires i < |echoed| && multiset(echoed[..i])[echoed[i]] == want[echoed[i]]
    ensures want != multiset(echoed)
  {
    assert echoed == echoed[..i] + [echoed[i]] + echoed[i + 1..];
  }

  lemma SubmultisetOfSameSize<T>(a: multiset<T>, b: multiset<T>)
    requires a <= b && |a| == |b|
    ensures a == b
  {
    assert |b - a| == 0;
  }

  /** The wallet may reorder: two echoes with the same hashes get the same verdict. */
  lemma EchoOrderIrrelevant(e: Settings, td: seq<Bytes>, echoed: seq<Bytes>, reordered: seq<Bytes>, alg: Bytes)
    requires multiset(echoed) == multiset(reordered)
    ensures EchoVerdict(e, td, echoed, alg) == EchoVerdict(e, td, reordered, alg)
  {
    assert |multiset(echoed)| == |multiset(reordered)|;
  }

  ghost predicate InjectiveDigest(lib: Library, alg: Bytes) {
    forall x: Bytes, y: Bytes :: lib.digest(alg, x) == lib.digest(alg, y) ==> x == y
  }

  lemma HashInjective(lib: Library, alg: Bytes, x: Bytes, y: Bytes)
    requires InjectiveDigest(lib, alg) && HashOf(lib, alg, x) == HashOf(lib, alg, y)
    ensures x == y
  {
    Base64url.EncodeInjective(lib.digest(alg, Base64url.Encode(x)), lib.digest(alg, Base64url.Encode(y)));
    Base64url.EncodeInjective(x, y);
  }

  lemma {:induction false} HashCounts(lib: Library, alg: Bytes, td: seq<Bytes>, x: Bytes)
    requires InjectiveDigest(lib, alg)
    ensures multiset(Hashes(lib, alg, td))[HashOf(lib, alg, x)] == multiset(td)[x]
  {
    if |td| == 0 {
    } else {
      var n := |td| - 1;
      HashCounts(lib, alg, td[..n], x);
      assert td == td[..n] + [td[n]];
      assert Hashes(lib, alg, td) == Hashes(lib, alg, td[..n]) + [HashOf(lib, alg, td[n])];
      if HashOf(lib, alg, td[n]) == HashOf(lib, alg, x) { HashInjective(lib, alg, td[n], x); }
    }
  }

  /** With an injective digest, one accepted echo determines the multiset of entries. */
  lemma EchoDeterminesEntries(e: Settings, td: seq<Bytes>, other: seq<Bytes>, echoed: seq<Bytes>, alg: Bytes)
    requires InjectiveDigest(e.lib, alg)
    requires EchoVerdict(e, td, echoed, alg).None? && EchoVerdict(e, other, echoed, alg).None?
    ensures multiset(td) == multiset(other)
  {
    if |td| > 0 && |other| > 0 {
      forall x ensures multiset(td)[x] == multiset(other)[x] {
        HashCounts(e.lib, alg, td, x);
        HashCounts(e.lib, alg, other, x);
      }
    }
  }
}
