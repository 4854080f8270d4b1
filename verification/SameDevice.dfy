/** The same-device return: the redirect with its response code (sections 8.2 and 13.3 of
    OpenID4VP 1.0) and the code's single redemption (section 14.2). */
module SameDeviceReturn {
  import opened GoStrings
  import opened Errors
  import opened Session
  import opened FormEncoding
  import NewSession
  import Engine

  const RESPONSE_CODE: Bytes := "response_code"

  function CodePair(code: Bytes): Bytes {
    RESPONSE_CODE + ['='] + Escape(code)
  }

  function Separator(returnURI: Bytes): Byte {
    if '?' in returnURI then '&' else '?'
  }

  /** The rendered redirect of a return URI and a code. */
  function Redirect(returnURI: Bytes, code: Bytes): Bytes {
    returnURI + [Separator(returnURI)] + CodePair(code)
  }

  /** `RedirectURI`. */
  function RedirectURI(s: SessionData): Result<Bytes> {
    if s.flow != SameDevice then Err(Is(FlowMismatch))
    else if s.responseCode == [] then Err(Is(NoResponseCode))
    else Ok(Redirect(s.returnURI, s.responseCode))
  }

  /** What `ConsumeResponseCode` returns (`None` is success) and what it leaves in the session. */
  function Redeem(s: SessionData, code: Bytes): (SessionData, Option<Error>) {
    if s.responseCode == [] then (s, Some(Is(NoResponseCode)))
    else if s.responseCodeUsed then (s, Some(Is(ResponseCodeConsumed)))
    else if s.responseCode != code then (s, Some(Is(ResponseCodeMismatch)))
    else (s.(responseCodeUsed := true), None)
  }

  method ConsumeResponseCode(s: Session?, code: Bytes) returns (err: Option<Error>)
    modifies s
    ensures s == null ==> err == Some(Is(SessionInvalid))
    ensures s != null ==> (s.Snapshot(), err) == Redeem(old(s.Snapshot()), code)
  {
    if s == null { return Some(Is(SessionInvalid)); }
    if s.responseCode == [] { return Some(Is(NoResponseCode)); }
    if s.responseCodeUsed { return Some(Is(ResponseCodeConsumed)); }
    if s.responseCode != code { return Some(Is(ResponseCodeMismatch)); }
    s.responseCodeUsed := true;
    return None;
  }

  /** For a session of the engine, a redirect exists exactly when a code was minted. */
  lemma RedirectIffMinted(e: Engine.Settings, s: SessionData)
    requires NewSession.Shape(e, s)
    ensures RedirectURI(s).Ok? <==> s.responseCode != []
  {
  }

  lemma CodePairReads(code: Bytes)
    ensures ReadSegment(CodePair(code)) == Read((RESPONSE_CODE, code)) && CodePair(code) != []
    ensures '&' !in CodePair(code) && '#' !in CodePair(code) && '?' !in CodePair(code)
  {
    EscapeUnreserved(RESPONSE_CODE);
    assert CodePair(code) == WritePair((RESPONSE_CODE, code));
    WrittenPairReads((RESPONSE_CODE, code));
    WrittenPairAvoids((RESPONSE_CODE, code), '&');
    WrittenPairAvoids((RESPONSE_CODE, code), '#');
    WrittenPairAvoids((RESPONSE_CODE, code), '?');
  }

  lemma RedirectExtends(returnURI: Bytes, code: Bytes)
    requires '#' !in returnURI && '?' in returnURI
    ensures QueryOf(Redirect(returnURI, code)) == QueryOf(returnURI) + ['&'] + CodePair(code)
  {
    var rest := ['&'] + CodePair(code);
    CodePairReads(code);
    assert Redirect(returnURI, code) == returnURI + rest;
    CutAbsent(returnURI + rest, '#');
    CutAbsent(returnURI, '#');
    CutExtended(returnURI, '?', rest);
    assert QueryOf(returnURI) + rest == QueryOf(returnURI) + ['&'] + CodePair(code);
  }

  lemma RedirectStarts(returnURI: Bytes, code: Bytes)
    requires '#' !in returnURI && '?' !in returnURI
    ensures QueryOf(Redirect(returnURI, code)) == CodePair(code) && QueryOf(returnURI) == []
  {
    CodePairReads(code);
    CutAbsent(Redirect(returnURI, code), '#');
    CutAbsent(returnURI, '#');
    CutJoined(returnURI, '?', CodePair(code));
    CutAbsent(returnURI, '?');
  }

  lemma FragmentSwallowsCode(returnURI: Bytes, code: Bytes)
    requires '#' in returnURI
    ensures QueryOf(Redirect(returnURI, code)) == QueryOf(returnURI)
  {
    var rest := [Separator(returnURI)] + CodePair(code);
    assert Redirect(returnURI, code) == returnURI + rest;
    CutExtended(returnURI, '#', rest);
  }

  lemma EmptyPieces()
    ensures Pieces([]) == [] && ParseQuery([]) == Form([], false)
  {
    assert Split([], '&') == [[]];
    assert NonEmpty([[]]) == NonEmpty([]);
    assert ReadSegments([[]]) == Prepend(ReadSegment([]), ReadSegments([]));
  }

  lemma OnePiece(kv: Bytes)
    requires '&' !in kv && kv != []
    ensures Split(kv, '&') == [kv] && Pieces(kv) == [kv]
    ensures ReadSegments([kv]) == Prepend(ReadSegment(kv), Form([], false))
  {
    SplitJoin([kv], '&');
    assert NonEmpty([kv]) == [kv] + NonEmpty([]);
  }

  lemma RedirectAppends(returnURI: Bytes, code: Bytes)
    requires '#' !in returnURI
    ensures Pieces(QueryOf(Redirect(returnURI, code))) == Pieces(QueryOf(returnURI)) + [CodePair(code)]
    ensures ParseQuery(QueryOf(Redirect(returnURI, code))) ==
            Both(ParseQuery(QueryOf(returnURI)), Form([(RESPONSE_CODE, code)], false))
  {
    var q, kv := QueryOf(returnURI), CodePair(code);
    CodePairReads(code);
    OnePiece(kv);
    assert ReadSegments([kv]) == Form([(RESPONSE_CODE, code)], false);
    if '?' in returnURI {
      RedirectExtends(returnURI, code);
      AppendPiece(q, kv);
    } else {
      RedirectStarts(returnURI, code);
      EmptyPieces();
    }
  }

  lemma AppendPiece(q: Bytes, kv: Bytes)
    requires '&' !in kv && kv != []
    ensures Pieces(q + ['&'] + kv) == Pieces(q) + [kv]
    ensures ParseQuery(q + ['&'] + kv) == Both(ParseQuery(q), ReadSegments([kv]))
  {
    OnePiece(kv);
    SplitAppend(q, '&', kv);
    NonEmptyAppend(Split(q, '&'), [kv]);
    ReadSegmentsAppend(Split(q, '&'), [kv]);
  }

  /** The query of the redirect is the query of the return URI, unchanged and in order, followed
      by the code, exactly when the return URI has no fragment mark. This covers a return URI
      that ends in `?` and one that already has a query. */
  lemma RedirectRoundTripIff(returnURI: Bytes, code: Bytes)
    ensures Pieces(QueryOf(Redirect(returnURI, code))) == Pieces(QueryOf(returnURI)) + [CodePair(code)]
       <==> '#' !in returnURI
    ensures '#' !in returnURI ==>
              ParseQuery(QueryOf(Redirect(returnURI, code))) ==
              Both(ParseQuery(QueryOf(returnURI)), Form([(RESPONSE_CODE, code)], false))
  {
    if '#' in returnURI {
      FragmentSwallowsCode(returnURI, code);
      assert |Pieces(QueryOf(returnURI)) + [CodePair(code)]| == |Pieces(QueryOf(returnURI))| + 1;
    } else {
      RedirectAppends(returnURI, code);
    }
  }

  /** Exactly when the browser's `response_code` parameter is the minted code, for every return URI:
      without a fragment mark, when the URI has no own parameter of that name or its first one
      happens to be that code; with one, only when its own first one happens to be it. */
  lemma RedirectCodeIff(returnURI: Bytes, code: Bytes)
    ensures var own := ValuesOf(ParseQuery(QueryOf(returnURI)).pairs, RESPONSE_CODE);
            Get(ParseQuery(QueryOf(Redirect(returnURI, code))).pairs, RESPONSE_CODE) == code <==>
            if own == [] then '#' !in returnURI || code == [] else own[0] == code
  {
    if '#' in returnURI {
      FragmentSwallowsCode(returnURI, code);
    } else {
      RedirectRoundTripIff(returnURI, code);
      var own := ParseQuery(QueryOf(returnURI)).pairs;
      var last: seq<Pair> := [(RESPONSE_CODE, code)];
      ValuesOfAppend(own, last, RESPONSE_CODE);
      assert last[1..] == [];
      assert ValuesOf(last, RESPONSE_CODE) == [code] + ValuesOf([], RESPONSE_CODE);
    }
  }

  const CALLBACK: Bytes := "https://v/cb"
  const FRAGMENT_URI: Bytes := CALLBACK + ['#'] + "x"
  const OWN_CODE_URI: Bytes := CALLBACK + ['?'] + "response_code=x"

  lemma CallbackPlain()
    ensures '?' !in CALLBACK && '#' !in CALLBACK
  {
  }

  /** The return URI `https://v/cb#x` is accepted, and its redirect has no query for the browser to send. */
  lemma FragmentAccepted(lib: Engine.Library, code: Bytes)
    requires lib.parseURL(FRAGMENT_URI) == Some(Engine.URL(Engine.HTTPS, "v", "v", "/cb", [], "x", false))
    requires code != []
    ensures NewSession.ValidHTTPSURL(lib, FRAGMENT_URI)
    ensures QueryOf(Redirect(FRAGMENT_URI, code)) == []
    ensures Get(ParseQuery(QueryOf(Redirect(FRAGMENT_URI, code))).pairs, RESPONSE_CODE) != code
  {
    CallbackPlain();
    CutJoined(CALLBACK, '#', "x");
    CutAbsent(CALLBACK, '?');
    assert FRAGMENT_URI[|CALLBACK|] == '#';
    FragmentSwallowsCode(FRAGMENT_URI, code);
    EmptyPieces();
  }

  lemma OwnCodePair()
    ensures CodePair("x") == "response_code=x" && '#' !in OWN_CODE_URI
    ensures QueryOf(OWN_CODE_URI) == CodePair("x")
  {
    EscapeUnreserved("x");
    assert RESPONSE_CODE + ['='] + "x" == "response_code=x";
    CallbackPlain();
    CodePairReads("x");
    CutAbsent(OWN_CODE_URI, '#');
    CutJoined(CALLBACK, '?', CodePair("x"));
  }

  lemma OneOwnCode()
    ensures ValuesOf(ParseQuery(CodePair("x")).pairs, RESPONSE_CODE) == ["x"]
  {
    var own: seq<Pair> := [(RESPONSE_CODE, "x")];
    CodePairReads("x");
    OnePiece(CodePair("x"));
    assert ParseQuery(CodePair("x")) == Form(own, false);
    assert own[1..] == [];
    assert ValuesOf(own, RESPONSE_CODE) == ["x"] + ValuesOf([], RESPONSE_CODE);
  }

  /** The return URI `https://v/cb?response_code=x` is accepted, and the browser's parameter is its own. */
  lemma OwnCodeAccepted(lib: Engine.Library, code: Bytes)
    requires lib.parseURL(OWN_CODE_URI) == Some(Engine.URL(Engine.HTTPS, "v", "v", "/cb", "response_code=x", [], false))
    ensures NewSession.ValidHTTPSURL(lib, OWN_CODE_URI)
    ensures Get(ParseQuery(QueryOf(Redirect(OWN_CODE_URI, code))).pairs, RESPONSE_CODE) == "x"
  {
    OwnCodePair();
    OneOwnCode();
    FirstCodeWins(OWN_CODE_URI, code);
  }

  /** An own parameter of the return URI comes before the minted code. */
  lemma FirstCodeWins(returnURI: Bytes, code: Bytes)
    requires '#' !in returnURI && ValuesOf(ParseQuery(QueryOf(returnURI)).pairs, RESPONSE_CODE) != []
    ensures Get(ParseQuery(QueryOf(Redirect(returnURI, code))).pairs, RESPONSE_CODE) ==
            ValuesOf(ParseQuery(QueryOf(returnURI)).pairs, RESPONSE_CODE)[0]
  {
    RedirectRoundTripIff(returnURI, code);
    ValuesOfAppend(ParseQuery(QueryOf(returnURI)).pairs, [(RESPONSE_CODE, code)], RESPONSE_CODE);
  }

  /** The redirect of a session: when there is one, which error there is otherwise, and that it is the return
      URI followed by one parameter. Without a fragment mark the browser's query is the
      return URI's own, in order, followed by the code. */
  lemma RedirectReads(s: SessionData)
    ensures RedirectURI(s).Ok? <==> s.flow == SameDevice && s.responseCode != []
    ensures s.flow != SameDevice ==> RedirectURI(s) == Err(Is(FlowMismatch))
    ensures s.flow == SameDevice && s.responseCode == [] ==> RedirectURI(s) == Err(Is(NoResponseCode))
    ensures RedirectURI(s).Ok? ==>
              var u, pair := RedirectURI(s).value, "response_code=" + Escape(s.responseCode);
              && |u| == |s.returnURI| + 1 + |pair| && u[..|s.returnURI|] == s.returnURI
              && u[|s.returnURI|] == (if '?' in s.returnURI then '&' else '?') && u[|s.returnURI| + 1..] == pair
              && ('#' !in s.returnURI ==>
                    && Pieces(QueryOf(u)) == Pieces(QueryOf(s.returnURI)) + [pair]
                    && ParseQuery(QueryOf(u)) ==
                       Both(ParseQuery(QueryOf(s.returnURI)), Form([("response_code", s.responseCode)], false)))
  {
    if RedirectURI(s).Ok? {
      CodePairIs(s.responseCode);
      RedirectRoundTripIff(s.returnURI, s.responseCode);
      RedirectIs(s.returnURI, s.responseCode);
    }
  }

  lemma CodePairIs(code: Bytes)
    ensures CodePair(code) == "response_code=" + Escape(code)
  {
    assert RESPONSE_CODE + ['='] == "response_code=";
  }

  lemma RedirectIs(returnURI: Bytes, code: Bytes)
    ensures var u, n := Redirect(returnURI, code), |returnURI|;
            && |u| == n + 1 + |CodePair(code)| && u[..n] == returnURI
            && u[n] == (if '?' in returnURI then '&' else '?') && u[n + 1..] == CodePair(code)
  {
  }

  /** Redemption succeeds exactly for the minted, unused code, and sets the mark; a refused attempt
      changes nothing and says which: no code, a used one, or another one, in this order. */
  lemma RedeemIff(s: SessionData, code: Bytes)
    ensures Redeem(s, code).1.None? <==> s.responseCode != [] && !s.responseCodeUsed && code == s.responseCode
    ensures Redeem(s, code).1.None? ==> Redeem(s, code).0 == s.(responseCodeUsed := true)
    ensures Redeem(s, code).1.Some? ==>
              Redeem(s, code).1 == Some(Is(if s.responseCode == [] then NoResponseCode
                                           else if s.responseCodeUsed then ResponseCodeConsumed
                                           else ResponseCodeMismatch))
    ensures Redeem(s, code).1.Some? ==> Redeem(s, code).0 == s
  {
  }
}
