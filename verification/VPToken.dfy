/** From a vp_token object to presentations (section 8.1 of OpenID4VP 1.0):
    the loop over an arbitrarily ordered map, and the function of the map it computes. */
module VPToken {
  import opened GoStrings
  import opened Errors
  import opened Session
  import opened Engine
  import Base64url

  datatype Presentation = Presentation(
    queryCredID: Bytes, format: Bytes, payload: Bytes,
    nonce: Bytes, clientID: Bytes, responseURI: Bytes,
    origin: Bytes, jwkThumbprint: Bytes)

  const MAX_VP_TOKEN_KEY_LEN: nat := 64

  datatype Fault = Unknown | NotAnArray | EmptyEntry | NotBase64url

  const NOT_AN_ARRAY: Bytes := "non-empty array of strings: "
  const EMPTY_ENTRY: Bytes := "empty presentation: "
  const NOT_BASE64URL: Bytes := "base64url: "

  /** The error for a fault under key `id`; the key is quoted up to 64 bytes. */
  function FaultError(fault: Fault, id: Bytes): (e: Error)
    ensures OneSentinel(e) && Mentions(e, if fault.Unknown? then UnknownCredentialID else MalformedResponse)
    ensures e.Wrap? && |e.detail| <= |NOT_AN_ARRAY| + 64 + 3
    ensures |id| <= 64 ==> |e.detail| >= |id| && e.detail[|e.detail| - |id|..] == id
  {
    var quoted := Clip(id, MAX_VP_TOKEN_KEY_LEN);
    match fault
    case Unknown => Wrapping(UnknownCredentialID, quoted)
    case NotAnArray => Wrapping(MalformedResponse, NOT_AN_ARRAY + quoted)
    case EmptyEntry => Wrapping(MalformedResponse, EMPTY_ENTRY + quoted)
    case NotBase64url => Wrapping(MalformedResponse, NOT_BASE64URL + quoted)
  }

  /** The format of credential `id`: the last credential with that id decides. */
  function FormatOf(creds: seq<CredentialQuery>, id: Bytes): Option<Bytes> {
    if |creds| == 0 then None
    else
      var last := creds[|creds| - 1];
      if last.id == id then Some(last.format) else FormatOf(creds[..|creds| - 1], id)
  }

  /** One entry of a key's array as a presentation, or the error it causes. */
  function Present(s: SessionData, id: Bytes, format: Bytes, entry: Bytes, thumbprint: Bytes): Result<Presentation> {
    if entry == [] then Err(FaultError(EmptyEntry, id))
    else if format == FORMAT_MDOC then
      match Base64url.Decode(entry)
      case None => Err(FaultError(NotBase64url, id))
      case Some(raw) => Ok(Presentation(id, format, raw, s.nonce, s.clientID, s.responseURI, [], thumbprint))
    else Ok(Presentation(id, format, entry, s.nonce, s.clientID, s.responseURI, [], []))
  }

  /** The entries of one key, in order, up to the first that fails. */
  function PresentAll(s: SessionData, id: Bytes, format: Bytes, entries: seq<Bytes>, thumbprint: Bytes)
    : (r: Result<seq<Presentation>>)
    ensures r.Ok? ==> |r.value| == |entries|
  {
    if |entries| == 0 then Ok([])
    else
      var init :- PresentAll(s, id, format, entries[..|entries| - 1], thumbprint);
      var last :- Present(s, id, format, entries[|entries| - 1], thumbprint);
      Ok(init + [last])
  }

  /** One key with its value. */
  function PresentKey(s: SessionData, vpToken: map<Bytes, VPValue>, id: Bytes, thumbprint: Bytes)
    : Result<seq<Presentation>>
    requires id in vpToken
  {
    match FormatOf(s.query.credentials, id)
    case None => Err(FaultError(Unknown, id))
    case Some(format) =>
      if vpToken[id].NotStrings? || |vpToken[id].entries| == 0 then
        Err(FaultError(NotAnArray, id))
      else PresentAll(s, id, format, vpToken[id].entries, thumbprint)
  }

  function PresentKeys(s: SessionData, vpToken: map<Bytes, VPValue>, ids: seq<Bytes>, thumbprint: Bytes)
    : Result<seq<Presentation>>
    requires forall id :: id in ids ==> id in vpToken
  {
    if |ids| == 0 then Ok([])
    else
      var init :- PresentKeys(s, vpToken, ids[..|ids| - 1], thumbprint);
      var last :- PresentKey(s, vpToken, ids[|ids| - 1], thumbprint);
      Ok(init + last)
  }

  /** What a vp_token object means for a session: a function of the map alone. */
  ghost function Flatten(s: SessionData, vpToken: map<Bytes, VPValue>, thumbprint: Bytes): Result<seq<Presentation>> {
    PresentKeys(s, vpToken, SortedKeys(vpToken.Keys), thumbprint)
  }

  /** An error reached on a prefix of the keys is the error of the whole. */
  lemma {:induction false} KeysFailEarly(s: SessionData, vpToken: map<Bytes, VPValue>, ids: seq<Bytes>, i: nat,
                                         thumbprint: Bytes)
    requires forall id :: id in ids ==> id in vpToken
    requires i <= |ids| && PresentKeys(s, vpToken, ids[..i], thumbprint).Err?
    ensures PresentKeys(s, vpToken, ids, thumbprint) == PresentKeys(s, vpToken, ids[..i], thumbprint)
  {
    if i < |ids| {
      var init := ids[..|ids| - 1];
      assert init[..i] == ids[..i];
      KeysFailEarly(s, vpToken, init, i, thumbprint);
    } else {
      assert ids[..i] == ids;
    }
  }

  /** One more key. */
  lemma KeysSnoc(s: SessionData, vpToken: map<Bytes, VPValue>, ids: seq<Bytes>, i: nat, thumbprint: Bytes)
    requires i < |ids| && forall id :: id in ids ==> id in vpToken
    requires PresentKeys(s, vpToken, ids[..i], thumbprint).Ok?
    ensures var last := PresentKey(s, vpToken, ids[i], thumbprint);
            && (last.Ok? ==> PresentKeys(s, vpToken, ids[..i + 1], thumbprint)
                             == Ok(PresentKeys(s, vpToken, ids[..i], thumbprint).value + last.value))
            && (last.Err? ==> PresentKeys(s, vpToken, ids, thumbprint) == Err(last.error))
  {
    assert ids[..i + 1][..i] == ids[..i] && ids[..i + 1][i] == ids[i];
    if PresentKey(s, vpToken, ids[i], thumbprint).Err? { KeysFailEarly(s, vpToken, ids, i + 1, thumbprint); }
  }

  lemma {:induction false} EntriesFailEarly(s: SessionData, id: Bytes, format: Bytes, entries: seq<Bytes>, i: nat,
                                            thumbprint: Bytes)
    requires i <= |entries| && PresentAll(s, id, format, entries[..i], thumbprint).Err?
    ensures PresentAll(s, id, format, entries, thumbprint) == PresentAll(s, id, format, entries[..i], thumbprint)
  {
    if i < |entries| {
      var init := entries[..|entries| - 1];
      assert init[..i] == entries[..i];
      EntriesFailEarly(s, id, format, init, i, thumbprint);
    } else {
      assert entries[..i] == entries;
    }
  }

  /** `formats[id]` after the loop over the credentials: later entries overwrite earlier ones. */
  ghost predicate FormatsAre(formats: map<Bytes, Bytes>, creds: seq<CredentialQuery>) {
    forall id :: (id in formats <==> FormatOf(creds, id).Some?) &&
                 (id in formats ==> FormatOf(creds, id) == Some(formats[id]))
  }

  /** The inner loop: one key's array. */
  method PresentArray(s: Session, id: Bytes, format: Bytes, entries: seq<Bytes>, thumbprint: Bytes)
    returns (r: Result<seq<Presentation>>)
    ensures r == PresentAll(s.Snapshot(), id, format, entries, thumbprint)
  {
    var out: seq<Presentation> := [];
    for j := 0 to |entries|
      invariant PresentAll(s.Snapshot(), id, format, entries[..j], thumbprint) == Ok(out)
    {
      var entry := entries[j];
      assert entries[..j + 1][..j] == entries[..j] && entries[..j + 1][j] == entry;
      if entry == [] {
        r := Err(FaultError(EmptyEntry, id));
        EntriesFailEarly(s.Snapshot(), id, format, entries, j + 1, thumbprint);
        return;
      }
      var p := Presentation(id, format, entry, s.nonce, s.clientID, s.responseURI, [], []);
      if format == FORMAT_MDOC {
        var raw := Base64url.Decode(entry);
        if raw.None? {
          r := Err(FaultError(NotBase64url, id));
          EntriesFailEarly(s.Snapshot(), id, format, entries, j + 1, thumbprint);
          return;
        }
        p := p.(payload := raw.value, jwkThumbprint := thumbprint);
      }
      out := out + [p];
    }
    assert entries[..|entries|] == entries;
    return Ok(out);
  }

  /** The first loop: the format of each credential of the query. */
  method Formats(s: Session) returns (formats: map<Bytes, Bytes>)
    ensures FormatsAre(formats, s.query.credentials)
  {
    var creds := s.query.credentials;
    formats := map[];
    for i := 0 to |creds|
      invariant FormatsAre(formats, creds[..i])
    {
      assert creds[..i + 1][..i] == creds[..i] && creds[..i + 1][i] == creds[i];
      formats := formats[creds[i].id := creds[i].format];
    }
    assert creds[..|creds|] == creds;
  }

  /** One turn of the outer loop. */
  method PresentOne(s: Session, formats: map<Bytes, Bytes>, vpToken: map<Bytes, VPValue>, id: Bytes, thumbprint: Bytes)
    returns (r: Result<seq<Presentation>>)
    requires id in vpToken && FormatsAre(formats, s.query.credentials)
    ensures r == PresentKey(s.Snapshot(), vpToken, id, thumbprint)
  {
    if id !in formats { return Err(FaultError(Unknown, id)); }
    if vpToken[id].NotStrings? || |vpToken[id].entries| == 0 { return Err(FaultError(NotAnArray, id)); }
    r := PresentArray(s, id, formats[id], vpToken[id].entries, thumbprint);
  }

  /** `presentationsFromVPToken`. The order in which the map's keys are drawn is arbitrary,
      and the result does not depend on it. */
  method PresentationsFromVPToken(s: Session, vpToken: map<Bytes, VPValue>, thumbprint: Bytes)
    returns (r: Result<seq<Presentation>>)
    ensures r == Flatten(s.Snapshot(), vpToken, thumbprint)
  {
    var formats := Formats(s);
    var ids := CollectSorted(vpToken.Keys);
    ghost var d := s.Snapshot();
    var out: seq<Presentation> := [];
    for i := 0 to |ids|
      invariant PresentKeys(d, vpToken, ids[..i], thumbprint) == Ok(out)
    {
      assert ids[i] in ids;
      r := PresentOne(s, formats, vpToken, ids[i], thumbprint);
      KeysSnoc(d, vpToken, ids, i, thumbprint);
      if r.Err? { return; }
      out := out + r.value;
    }
    assert ids[..|ids|] == ids;
    return Ok(out);
  }

  /** Acceptable entry of a key whose credential has format `format`. */
  predicate GoodEntry(format: Bytes, entry: Bytes) {
    entry != [] && (format == FORMAT_MDOC ==> Base64url.Decode(entry).Some?)
  }

  /** A key of the query with a non-empty array of acceptable entries. */
  predicate GoodKey(query: Query, vpToken: map<Bytes, VPValue>, id: Bytes)
    requires id in vpToken
  {
    && FormatOf(query.credentials, id).Some?
    && vpToken[id].Strings? && |vpToken[id].entries| > 0
    && forall j :: 0 <= j < |vpToken[id].entries| ==>
         GoodEntry(FormatOf(query.credentials, id).value, vpToken[id].entries[j])
  }

  lemma {:induction false} PresentAllIff(s: SessionData, id: Bytes, format: Bytes, entries: seq<Bytes>,
                                         thumbprint: Bytes)
    ensures var r := PresentAll(s, id, format, entries, thumbprint);
            && (r.Ok? <==> forall j :: 0 <= j < |entries| ==> GoodEntry(format, entries[j]))
            && (r.Ok? ==>
                  forall j :: 0 <= j < |entries| ==> Present(s, id, format, entries[j], thumbprint) == Ok(r.value[j]))
  {
    if |entries| == 0 {
    } else {
      var n := |entries| - 1;
      PresentAllIff(s, id, format, entries[..n], thumbprint);
      assert GoodEntry(format, entries[n]) <==> Present(s, id, format, entries[n], thumbprint).Ok?;
      assert forall j :: 0 <= j < n ==> entries[..n][j] == entries[j];
    }
  }

  lemma PresentKeyIff(s: SessionData, vpToken: map<Bytes, VPValue>, id: Bytes, thumbprint: Bytes)
    requires id in vpToken
    ensures PresentKey(s, vpToken, id, thumbprint).Ok? <==> GoodKey(s.query, vpToken, id)
  {
    if FormatOf(s.query.credentials, id).Some? && vpToken[id].Strings? {
      PresentAllIff(s, id, FormatOf(s.query.credentials, id).value, vpToken[id].entries, thumbprint);
    }
  }

  lemma {:induction false} PresentKeysIff(s: SessionData, vpToken: map<Bytes, VPValue>, ids: seq<Bytes>,
                                          thumbprint: Bytes)
    requires forall id :: id in ids ==> id in vpToken
    ensures PresentKeys(s, vpToken, ids, thumbprint).Ok? <==> forall id :: id in ids ==> GoodKey(s.query, vpToken, id)
  {
    if |ids| == 0 {
    } else {
      var n := |ids| - 1;
      PresentKeysIff(s, vpToken, ids[..n], thumbprint);
      PresentKeyIff(s, vpToken, ids[n], thumbprint);
      assert ids == ids[..n] + [ids[n]];
    }
  }

  /** Success exactly when every key is good. */
  lemma FlattenSucceedsIff(s: SessionData, vpToken: map<Bytes, VPValue>, thumbprint: Bytes)
    ensures Flatten(s, vpToken, thumbprint).Ok? <==> forall id :: id in vpToken ==> GoodKey(s.query, vpToken, id)
  {
    var ids := SortedKeys(vpToken.Keys);
    PresentKeysIff(s, vpToken, ids, thumbprint);
    assert forall id :: id in ids <==> id in vpToken;
  }

  function EntriesOf(v: VPValue): seq<Bytes> {
    if v.Strings? then v.entries else []
  }

  /** How many entries the first `i` keys hold: where key `i` starts in the output. */
  ghost function Offset(vpToken: map<Bytes, VPValue>, ids: seq<Bytes>, i: nat): nat
    requires i <= |ids| && forall id :: id in ids ==> id in vpToken
  {
    if i == 0 then 0 else Offset(vpToken, ids, i - 1) + |EntriesOf(vpToken[ids[i - 1]])|
  }

  lemma {:induction false} OffsetPrefix(vpToken: map<Bytes, VPValue>, ids: seq<Bytes>, n: nat, i: nat)
    requires i <= n <= |ids| && forall id :: id in ids ==> id in vpToken
    ensures Offset(vpToken, ids[..n], i) == Offset(vpToken, ids, i) <= Offset(vpToken, ids, n)
    decreases n, i
  {
    if i > 0 { OffsetPrefix(vpToken, ids, n, i - 1); }
    if i < n { OffsetPrefix(vpToken, ids, n - 1, i); }
  }

  /** Credential number `k` is the last one of the query with that id. */
  ghost predicate LastCredential(creds: seq<CredentialQuery>, id: Bytes, k: nat) {
    k < |creds| && creds[k].id == id && forall m :: k < m < |creds| ==> creds[m].id != id
  }

  lemma {:induction false} FormatOfLast(creds: seq<CredentialQuery>, id: Bytes)
    ensures FormatOf(creds, id).Some? <==> exists k: nat :: LastCredential(creds, id, k)
    ensures forall k: nat :: LastCredential(creds, id, k) ==> FormatOf(creds, id) == Some(creds[k].format)
  {
    if |creds| == 0 {
    } else {
      var n := |creds| - 1;
      FormatOfLast(creds[..n], id);
      if creds[n].id == id {
        assert LastCredential(creds, id, n);
      } else {
        forall k: nat ensures LastCredential(creds, id, k) <==> LastCredential(creds[..n], id, k) {
          if k < n { assert creds[..n][k] == creds[k]; }
        }
      }
    }
  }

  /** The presentation an entry under key `id` stands for: the id, the format of the last credential with
      that id, the decoded bytes for an mdoc and the entry itself for anything else, the binding
      values of the session, and the thumbprint for an mdoc only. */
  ghost predicate Renders(s: SessionData, thumbprint: Bytes, origin: Bytes, id: Bytes, entry: Bytes, p: Presentation) {
    && p.queryCredID == id
    && (exists k: nat :: LastCredential(s.query.credentials, id, k) && p.format == s.query.credentials[k].format)
    && (if p.format == "mso_mdoc" then Base64url.Decode(entry) == Some(p.payload) else p.payload == entry)
    && p.jwkThumbprint == (if p.format == "mso_mdoc" then thumbprint else [])
    && p.nonce == s.nonce && p.clientID == s.clientID && p.responseURI == s.responseURI && p.origin == origin
  }

  lemma PresentRenders(s: SessionData, id: Bytes, entry: Bytes, thumbprint: Bytes)
    requires FormatOf(s.query.credentials, id).Some?
    requires Present(s, id, FormatOf(s.query.credentials, id).value, entry, thumbprint).Ok?
    ensures Renders(s, thumbprint, [], id, entry,
                    Present(s, id, FormatOf(s.query.credentials, id).value, entry, thumbprint).value)
  {
    FormatOfLast(s.query.credentials, id);
  }

  /** `out` holds, key after key in the order of `ids`, each key's entries in order and nothing else. */
  ghost predicate Concatenates(s: SessionData, vpToken: map<Bytes, VPValue>, ids: seq<Bytes>, thumbprint: Bytes,
                               origin: Bytes, out: seq<Presentation>)
    requires forall id :: id in ids ==> id in vpToken
  {
    && |out| == Offset(vpToken, ids, |ids|)
    && forall i: nat, j: nat :: i < |ids| && j < |EntriesOf(vpToken[ids[i]])| ==>
         Placed(s, vpToken, ids, thumbprint, origin, out, i, j)
  }

  /** Entry `j` of key number `i` is in its place in `out`. */
  ghost predicate Placed(s: SessionData, vpToken: map<Bytes, VPValue>, ids: seq<Bytes>, thumbprint: Bytes,
                         origin: Bytes, out: seq<Presentation>, i: nat, j: nat)
    requires forall id :: id in ids ==> id in vpToken
    requires i < |ids| && j < |EntriesOf(vpToken[ids[i]])|
  {
    && Offset(vpToken, ids, i) + j < |out|
    && Renders(s, thumbprint, origin, ids[i], EntriesOf(vpToken[ids[i]])[j], out[Offset(vpToken, ids, i) + j])
  }

  /** `out` is the vp_token in strict byte order of its keys, and nothing else. */
  ghost predicate FlattensTo(s: SessionData, vpToken: map<Bytes, VPValue>, thumbprint: Bytes, origin: Bytes,
                             out: seq<Presentation>)
  {
    Concatenates(s, vpToken, SortedKeys(vpToken.Keys), thumbprint, origin, out)
  }

  lemma KeyPresents(s: SessionData, vpToken: map<Bytes, VPValue>, id: Bytes, thumbprint: Bytes)
    requires id in vpToken && GoodKey(s.query, vpToken, id)
    ensures PresentKey(s, vpToken, id, thumbprint).Ok?
    ensures var out := PresentKey(s, vpToken, id, thumbprint).value;
            && |out| == |EntriesOf(vpToken[id])|
            && forall j: nat :: j < |out| ==> Renders(s, thumbprint, [], id, EntriesOf(vpToken[id])[j], out[j])
  {
    PresentAllIff(s, id, FormatOf(s.query.credentials, id).value, vpToken[id].entries, thumbprint);
    var out := PresentKey(s, vpToken, id, thumbprint).value;
    forall j: nat | j < |out| ensures Renders(s, thumbprint, [], id, EntriesOf(vpToken[id])[j], out[j]) {
      PresentRenders(s, id, vpToken[id].entries[j], thumbprint);
    }
  }

  lemma ConcatenatesAppend(s: SessionData, vpToken: map<Bytes, VPValue>, ids: seq<Bytes>, thumbprint: Bytes,
                           head: seq<Presentation>, tail: seq<Presentation>)
    requires |ids| > 0 && forall id :: id in ids ==> id in vpToken
    requires Concatenates(s, vpToken, ids[..|ids| - 1], thumbprint, [], head)
    requires |tail| == |EntriesOf(vpToken[ids[|ids| - 1]])|
    requires forall j: nat :: j < |tail| ==>
               Renders(s, thumbprint, [], ids[|ids| - 1], EntriesOf(vpToken[ids[|ids| - 1]])[j], tail[j])
    ensures Concatenates(s, vpToken, ids, thumbprint, [], head + tail)
  {
    var n, init, out := |ids| - 1, ids[..|ids| - 1], head + tail;
    OffsetPrefix(vpToken, ids, n, n);
    forall i: nat, j: nat | i < |ids| && j < |EntriesOf(vpToken[ids[i]])|
      ensures Placed(s, vpToken, ids, thumbprint, [], out, i, j)
    {
      if i < n {
        OffsetPrefix(vpToken, ids, n, i);
        assert init[i] == ids[i];
        assert Placed(s, vpToken, init, thumbprint, [], head, i, j);
      } else {
        assert out[|head| + j] == tail[j];
      }
    }
  }

  lemma {:induction false} PresentKeysConcatenates(s: SessionData, vpToken: map<Bytes, VPValue>, ids: seq<Bytes>,
                                                   thumbprint: Bytes)
    requires forall id :: id in ids ==> id in vpToken && GoodKey(s.query, vpToken, id)
    ensures PresentKeys(s, vpToken, ids, thumbprint).Ok?
    ensures Concatenates(s, vpToken, ids, thumbprint, [], PresentKeys(s, vpToken, ids, thumbprint).value)
  {
    PresentKeysIff(s, vpToken, ids, thumbprint);
    if |ids| == 0 {
    } else {
      var n := |ids| - 1;
      PresentKeysConcatenates(s, vpToken, ids[..n], thumbprint);
      KeyPresents(s, vpToken, ids[n], thumbprint);
      ConcatenatesAppend(s, vpToken, ids, thumbprint, PresentKeys(s, vpToken, ids[..n], thumbprint).value,
                         PresentKey(s, vpToken, ids[n], thumbprint).value);
    }
  }

  /** On success: the concatenation, over the keys in strict byte order, of each key's entries. */
  lemma FlattenConcatenates(s: SessionData, vpToken: map<Bytes, VPValue>, thumbprint: Bytes)
    requires Flatten(s, vpToken, thumbprint).Ok?
    ensures forall id :: id in vpToken ==> GoodKey(s.query, vpToken, id)
    ensures FlattensTo(s, vpToken, thumbprint, [], Flatten(s, vpToken, thumbprint).value)
  {
    FlattenSucceedsIff(s, vpToken, thumbprint);
    PresentKeysConcatenates(s, vpToken, SortedKeys(vpToken.Keys), thumbprint);
  }

  /** Every place of the output belongs to an entry of some key. */
  lemma {:induction false} PlaceOf(vpToken: map<Bytes, VPValue>, ids: seq<Bytes>, n: nat, k: nat)
    returns (i: nat, j: nat)
    requires n <= |ids| && forall id :: id in ids ==> id in vpToken
    requires k < Offset(vpToken, ids, n)
    ensures i < n && j < |EntriesOf(vpToken[ids[i]])| && k == Offset(vpToken, ids, i) + j
  {
    if k < Offset(vpToken, ids, n - 1) {
      i, j := PlaceOf(vpToken, ids, n - 1, k);
    } else {
      i, j := n - 1, k - Offset(vpToken, ids, n - 1);
    }
  }

  lemma RendersUnique(s: SessionData, thumbprint: Bytes, origin: Bytes, id: Bytes, entry: Bytes,
                      p: Presentation, q: Presentation)
    requires Renders(s, thumbprint, origin, id, entry, p) && Renders(s, thumbprint, origin, id, entry, q)
    ensures p == q
  {
    FormatOfLast(s.query.credentials, id);
  }

  /** A vp_token flattens to one list only. */
  lemma FlattensToUnique(s: SessionData, vpToken: map<Bytes, VPValue>, thumbprint: Bytes, origin: Bytes,
                         out: seq<Presentation>, other: seq<Presentation>)
    requires FlattensTo(s, vpToken, thumbprint, origin, out) && FlattensTo(s, vpToken, thumbprint, origin, other)
    ensures out == other
  {
    var ids := SortedKeys(vpToken.Keys);
    forall k | 0 <= k < |out| ensures out[k] == other[k] {
      var i, j := PlaceOf(vpToken, ids, |ids|, k);
      assert Placed(s, vpToken, ids, thumbprint, origin, out, i, j);
      assert Placed(s, vpToken, ids, thumbprint, origin, other, i, j);
      RendersUnique(s, thumbprint, origin, ids[i], EntriesOf(vpToken[ids[i]])[j], out[k], other[k]);
    }
  }

  /** Stamping an origin moves nothing. */
  lemma StampedFlattens(s: SessionData, vpToken: map<Bytes, VPValue>, thumbprint: Bytes, origin: Bytes,
                        out: seq<Presentation>, stamped: seq<Presentation>)
    requires FlattensTo(s, vpToken, thumbprint, [], out) && |stamped| == |out|
    requires forall k :: 0 <= k < |out| ==> stamped[k] == out[k].(origin := origin)
    ensures FlattensTo(s, vpToken, thumbprint, origin, stamped)
  {
    var ids := SortedKeys(vpToken.Keys);
    forall i: nat, j: nat | i < |ids| && j < |EntriesOf(vpToken[ids[i]])|
      ensures Placed(s, vpToken, ids, thumbprint, origin, stamped, i, j)
    {
      assert Placed(s, vpToken, ids, thumbprint, [], out, i, j);
    }
  }

  /** In a flattened vp_token, an mdoc entry `Encode(raw)` is presented, in its place, as exactly `raw`. */
  lemma MdocComesBack(s: SessionData, vpToken: map<Bytes, VPValue>, thumbprint: Bytes, origin: Bytes,
                      out: seq<Presentation>, i: nat, j: nat, raw: Bytes)
    requires FlattensTo(s, vpToken, thumbprint, origin, out)
    requires var ids := SortedKeys(vpToken.Keys);
             && i < |ids| && j < |EntriesOf(vpToken[ids[i]])| && EntriesOf(vpToken[ids[i]])[j] == Base64url.Encode(raw)
             && FormatOf(s.query.credentials, ids[i]) == Some("mso_mdoc")
    ensures var ids := SortedKeys(vpToken.Keys);
            var k := Offset(vpToken, ids, i) + j;
            k < |out| && out[k].queryCredID == ids[i] && out[k].payload == raw
  {
    var ids := SortedKeys(vpToken.Keys);
    assert Placed(s, vpToken, ids, thumbprint, origin, out, i, j);
    FormatOfLast(s.query.credentials, ids[i]);
    Base64url.DecodeEncode(raw);
  }

  /** The fault of a key that is not good, at its first bad entry. */
  ghost predicate FaultOf(s: SessionData, vpToken: map<Bytes, VPValue>, id: Bytes, fault: Fault)
    requires id in vpToken
  {
    match FormatOf(s.query.credentials, id)
    case None => fault == Unknown
    case Some(format) =>
      if vpToken[id].NotStrings? || |vpToken[id].entries| == 0 then fault == NotAnArray
      else
        exists j: nat :: FirstBad(format, vpToken[id].entries, j) &&
                    fault == if vpToken[id].entries[j] == [] then EmptyEntry else NotBase64url
  }

  ghost predicate FirstBad(format: Bytes, entries: seq<Bytes>, j: nat) {
    && j < |entries| && !GoodEntry(format, entries[j])
    && forall k :: 0 <= k < j ==> GoodEntry(format, entries[k])
  }

  lemma {:induction false} PresentAllFault(s: SessionData, id: Bytes, format: Bytes, entries: seq<Bytes>,
                                           thumbprint: Bytes)
    returns (j: nat)
    requires PresentAll(s, id, format, entries, thumbprint).Err?
    ensures FirstBad(format, entries, j)
    ensures PresentAll(s, id, format, entries, thumbprint).error
         == FaultError(if entries[j] == [] then EmptyEntry else NotBase64url, id)
  {
    var n := |entries| - 1;
    PresentAllIff(s, id, format, entries[..n], thumbprint);
    if PresentAll(s, id, format, entries[..n], thumbprint).Err? {
      j := PresentAllFault(s, id, format, entries[..n], thumbprint);
      assert forall k :: 0 <= k < n ==> entries[..n][k] == entries[k];
    } else {
      j := n;
      assert forall k :: 0 <= k < n ==> entries[..n][k] == entries[k];
    }
  }

  lemma PresentKeyFault(s: SessionData, vpToken: map<Bytes, VPValue>, id: Bytes, thumbprint: Bytes)
    returns (fault: Fault)
    requires id in vpToken && PresentKey(s, vpToken, id, thumbprint).Err?
    ensures FaultOf(s, vpToken, id, fault)
    ensures PresentKey(s, vpToken, id, thumbprint).error == FaultError(fault, id)
  {
    match FormatOf(s.query.credentials, id)
    case None => fault := Unknown;
    case Some(format) =>
      if vpToken[id].NotStrings? || |vpToken[id].entries| == 0 {
        fault := NotAnArray;
      } else {
        var j := PresentAllFault(s, id, format, vpToken[id].entries, thumbprint);
        fault := if vpToken[id].entries[j] == [] then EmptyEntry else NotBase64url;
      }
  }

  lemma {:induction false} PresentKeysFault(s: SessionData, vpToken: map<Bytes, VPValue>, ids: seq<Bytes>,
                                            thumbprint: Bytes)
    returns (i: nat, fault: Fault)
    requires forall id :: id in ids ==> id in vpToken
    requires PresentKeys(s, vpToken, ids, thumbprint).Err?
    ensures i < |ids| && !GoodKey(s.query, vpToken, ids[i]) && FaultOf(s, vpToken, ids[i], fault)
    ensures forall k :: 0 <= k < i ==> GoodKey(s.query, vpToken, ids[k])
    ensures PresentKeys(s, vpToken, ids, thumbprint).error == FaultError(fault, ids[i])
  {
    var n := |ids| - 1;
    var init := ids[..n];
    PresentKeysIff(s, vpToken, init, thumbprint);
    if PresentKeys(s, vpToken, init, thumbprint).Err? {
      i, fault := PresentKeysFault(s, vpToken, init, thumbprint);
      assert forall k :: 0 <= k < n ==> init[k] == ids[k];
    } else {
      i := n;
      PresentKeyIff(s, vpToken, ids[n], thumbprint);
      fault := PresentKeyFault(s, vpToken, ids[n], thumbprint);
      assert forall k :: 0 <= k < n ==> ids[k] in init;
    }
  }

  /** On failure: the error of the least offending key, at its first bad entry. */
  lemma FlattenFault(s: SessionData, vpToken: map<Bytes, VPValue>, thumbprint: Bytes) returns (id: Bytes, fault: Fault)
    requires Flatten(s, vpToken, thumbprint).Err?
    ensures id in vpToken && !GoodKey(s.query, vpToken, id) && FaultOf(s, vpToken, id, fault)
    ensures forall other :: other in vpToken && !GoodKey(s.query, vpToken, other) ==> other == id || Less(id, other)
    ensures Flatten(s, vpToken, thumbprint) == Err(FaultError(fault, id))
  {
    var ids := SortedKeys(vpToken.Keys);
    var i, f := PresentKeysFault(s, vpToken, ids, thumbprint);
    id, fault := ids[i], f;
    forall other | other in vpToken && !GoodKey(s.query, vpToken, other) ensures other == id || Less(id, other) {
      var k :| 0 <= k < |ids| && ids[k] == other;
    }
  }

  /** Every presentation carries the session's binding values, and an mdoc one the thumbprint. */
  ghost predicate Bound(s: SessionData, thumbprint: Bytes, p: Presentation) {
    && p.nonce == s.nonce && p.clientID == s.clientID && p.responseURI == s.responseURI && p.origin == []
    && p.jwkThumbprint == (if p.format == FORMAT_MDOC then thumbprint else [])
    && FormatOf(s.query.credentials, p.queryCredID) == Some(p.format)
  }

  lemma {:induction false} PresentKeysBound(s: SessionData, vpToken: map<Bytes, VPValue>, ids: seq<Bytes>,
                                            thumbprint: Bytes)
    requires forall id :: id in ids ==> id in vpToken
    requires PresentKeys(s, vpToken, ids, thumbprint).Ok?
    ensures forall p :: p in PresentKeys(s, vpToken, ids, thumbprint).value ==> Bound(s, thumbprint, p)
  {
    if |ids| == 0 {
    } else {
      var n := |ids| - 1;
      PresentKeysBound(s, vpToken, ids[..n], thumbprint);
      PresentAllIff(s, ids[n], FormatOf(s.query.credentials, ids[n]).value, vpToken[ids[n]].entries, thumbprint);
    }
  }

  lemma FlattenBound(s: SessionData, vpToken: map<Bytes, VPValue>, thumbprint: Bytes)
    requires Flatten(s, vpToken, thumbprint).Ok?
    ensures forall p :: p in Flatten(s, vpToken, thumbprint).value ==> Bound(s, thumbprint, p)
  {
    PresentKeysBound(s, vpToken, SortedKeys(vpToken.Keys), thumbprint);
  }
}
