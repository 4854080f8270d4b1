/** The wallet-boundary error response: a first-match scan of a sentinel table. */
module ErrorResponse {
  import opened GoStrings
  import opened Errors

  const INVALID_REQUEST := "invalid_request"
  const INVALID_CLIENT := "invalid_client"
  const ACCESS_DENIED := "access_denied"
  const VP_FORMATS_NOT_SUPPORTED := "vp_formats_not_supported"
  const INVALID_REQUEST_URI := "invalid_request_uri"
  const INVALID_REQUEST_OBJECT := "invalid_request_object"
  const SERVER_ERROR := "server_error"

  const MAX_WALLET_ERROR_LEN: nat := 256

  datatype Reply = Reply(status: nat, code: string, description: string)

  datatype Row = Row(sentinel: Sentinel, reply: Reply)

  const INTERNAL_ERROR := Reply(500, SERVER_ERROR, "internal error")

  function Refused(description: string): Reply {
    Reply(400, INVALID_REQUEST, description)
  }

  const ERROR_TABLE: seq<Row> := [
    Row(SessionNotFound, Reply(404, INVALID_REQUEST, "unknown or expired session")),
    Row(SessionExpired, Reply(404, INVALID_REQUEST, "session expired")),
    Row(SessionConsumed, Refused("response already received")),
    Row(RequestURIConsumed, Reply(400, INVALID_REQUEST_URI, "request already retrieved")),
    Row(WalletMetadataInvalid, Refused("wallet metadata rejected")),
    Row(BodyTooLarge, Refused("response too large")),
    Row(MalformedResponse, Refused("malformed response")),
    Row(DecryptFailed, Refused("response could not be decrypted")),
    Row(StateMismatch, Refused("state binding failed")),
    Row(APVMismatch, Refused("response nonce binding failed")),
    Row(UnknownCredentialID, Refused("unexpected credential in response")),
    Row(OriginNotExpected, Reply(400, INVALID_CLIENT, "origin not allowed")),
    Row(ResponseCodeMismatch, Refused("response code binding failed")),
    Row(ResponseCodeConsumed, Refused("response code already used")),
    Row(NoResponseCode, Refused("no response code for session")),
    Row(TransactionDataMismatch, Refused("transaction data binding failed")),
    Row(TransactionDataMissing, Refused("transaction data not confirmed")),
    Row(TransactionDataUnexpected, Refused("unexpected transaction data")),
    Row(FlowMismatch, Refused("wrong endpoint for this session")),
    Row(NoRegistration, INTERNAL_ERROR),
    Row(BadConfig, INTERNAL_ERROR),
    Row(BadSpec, INTERNAL_ERROR),
    Row(SessionInvalid, INTERNAL_ERROR),
    Row(SessionNotConsumed, INTERNAL_ERROR),
    Row(TranscriptParams, INTERNAL_ERROR),
    Row(TransactionDataDisabled, INTERNAL_ERROR),
    Row(TransactionDataInvalid, INTERNAL_ERROR),
    Row(SANMismatch, INTERNAL_ERROR),
    Row(UnsupportedClientIDPrefix, INTERNAL_ERROR)
  ]

  predicate Registered(code: string) {
    code == ACCESS_DENIED || code == INVALID_REQUEST || code == INVALID_CLIENT ||
    code == VP_FORMATS_NOT_SUPPORTED || code == INVALID_REQUEST_URI || code == INVALID_REQUEST_OBJECT
  }

  function NormalizeWalletCode(code: string): string {
    if Registered(code) then code else INVALID_REQUEST
  }

  function Scan(table: seq<Row>, e: Error): Reply {
    if |table| == 0 then INTERNAL_ERROR
    else if Mentions(e, table[0].sentinel) then table[0].reply
    else Scan(table[1..], e)
  }

  /** The reply to a present error, for any order of the table. */
  function ReplyTo(table: seq<Row>, e: Error): Reply {
    match FindWallet(e)
    case Some(we) => Reply(400, NormalizeWalletCode(we.code), "wallet reported an error")
    case None => Scan(table, e)
  }

  /** `Engine.ErrorResponse`: `None` is a nil error. */
  method Respond(err: Option<Error>) returns (reply: Reply)
    ensures err.None? ==> reply == INTERNAL_ERROR
    ensures err.Some? ==> reply == ReplyTo(ERROR_TABLE, err.value)
  {
    if err.None? { return INTERNAL_ERROR; }
    var we := FindWallet(err.value);
    if we.Some? {
      return Reply(400, NormalizeWalletCode(we.value.code), "wallet reported an error");
    }
    for i := 0 to |ERROR_TABLE|
      invariant Scan(ERROR_TABLE, err.value) == Scan(ERROR_TABLE[i..], err.value)
    {
      if Mentions(err.value, ERROR_TABLE[i].sentinel) { return ERROR_TABLE[i].reply; }
    }
    return INTERNAL_ERROR;
  }

  ghost predicate HasRow(table: seq<Row>, row: Row) {
    exists i :: 0 <= i < |table| && table[i] == row
  }

  /** At most one row for each sentinel. */
  ghost predicate Keyed(table: seq<Row>) {
    forall i, j :: 0 <= i < j < |table| ==> table[i].sentinel != table[j].sentinel
  }

  /** Where the first match lands in `table`, for an error that mentions only `row.sentinel`. */
  lemma {:induction false} ScanFinds(table: seq<Row>, e: Error, row: Row)
    requires Keyed(table) && HasRow(table, row)
    requires OneSentinel(e) && Mentions(e, row.sentinel)
    ensures Scan(table, e) == row.reply
  {
    var i :| 0 <= i < |table| && table[i] == row;
    if i > 0 {
      assert table[0].sentinel != row.sentinel;
      assert table[1..][i - 1] == row;
      ScanFinds(table[1..], e, row);
    }
  }

  lemma {:induction false} ScanMisses(table: seq<Row>, e: Error)
    requires forall i :: 0 <= i < |table| ==> !Mentions(e, table[i].sentinel)
    ensures Scan(table, e) == INTERNAL_ERROR
  {
    if |table| == 0 {
    } else {
      ScanMisses(table[1..], e);
    }
  }

  /** The row index of each sentinel. */
  function RowOf(k: Sentinel): (i: nat)
    ensures i < |ERROR_TABLE| && ERROR_TABLE[i].sentinel == k
  {
    match k
    case SessionNotFound => 0 case SessionExpired => 1 case SessionConsumed => 2
    case RequestURIConsumed => 3 case WalletMetadataInvalid => 4
    case BodyTooLarge => 5 case MalformedResponse => 6 case DecryptFailed => 7
    case StateMismatch => 8 case APVMismatch => 9 case UnknownCredentialID => 10
    case OriginNotExpected => 11
    case ResponseCodeMismatch => 12 case ResponseCodeConsumed => 13 case NoResponseCode => 14
    case TransactionDataMismatch => 15 case TransactionDataMissing => 16 case TransactionDataUnexpected => 17
    case FlowMismatch => 18
    case NoRegistration => 19 case BadConfig => 20 case BadSpec => 21 case SessionInvalid => 22
    case SessionNotConsumed => 23 case TranscriptParams => 24 case TransactionDataDisabled => 25
    case TransactionDataInvalid => 26 case SANMismatch => 27 case UnsupportedClientIDPrefix => 28
  }

  lemma TableKeyed()
    ensures Keyed(ERROR_TABLE)
  {
    assert forall i :: 0 <= i < |ERROR_TABLE| ==> RowOf(ERROR_TABLE[i].sentinel) == i;
  }

  /** Every sentinel has exactly one row. */
  lemma TableComplete()
    ensures Keyed(ERROR_TABLE)
    ensures forall k :: HasRow(ERROR_TABLE, ERROR_TABLE[RowOf(k)]) && ERROR_TABLE[RowOf(k)].sentinel == k
  {
    TableKeyed();
  }

  lemma {:induction false} RowsOnce(table: seq<Row>, row: Row)
    requires Keyed(table)
    ensures multiset(table)[row] <= 1
  {
    if |table| == 0 {
    } else {
      var init := table[..|table| - 1];
      RowsOnce(init, row);
      assert table == init + [table[|table| - 1]];
    }
  }

  /** Reordering keeps the rows, and one row for each sentinel. */
  lemma ReorderedRows(table: seq<Row>, original: seq<Row>)
    requires Reordered(table, original) && Keyed(original)
    ensures Keyed(table) && forall row :: HasRow(table, row) <==> HasRow(original, row)
  {
    forall row ensures HasRow(table, row) <==> HasRow(original, row) {
      assert row in multiset(table) <==> row in multiset(original);
    }
    forall i, j | 0 <= i < j < |table| ensures table[i].sentinel != table[j].sentinel {
      assert HasRow(table, table[i]) && HasRow(table, table[j]);
      RowsOnce(original, table[i]);
      assert table == table[..j] + table[j..];
      assert table[i] in table[..j];
    }
  }

  ghost predicate Reordered(table: seq<Row>, original: seq<Row>) {
    multiset(table) == multiset(original)
  }

  /** The reply to an error with one sentinel does not depend on the order of a table with one row
      for each sentinel. */
  lemma OrderIndependent(table: seq<Row>, original: seq<Row>, e: Error)
    requires Keyed(original) && Reordered(table, original) && OneSentinel(e)
    ensures ReplyTo(table, e) == ReplyTo(original, e)
  {
    ReorderedRows(table, original);
    if i :| 0 <= i < |original| && Mentions(e, original[i].sentinel) {
      assert HasRow(original, original[i]);
      ScanFinds(table, e, original[i]);
      ScanFinds(original, e, original[i]);
    } else {
      forall i | 0 <= i < |table| ensures !Mentions(e, table[i].sentinel) {
        assert HasRow(table, table[i]) && HasRow(original, table[i]);
      }
      ScanMisses(table, e);
      ScanMisses(original, e);
    }
  }

  /** However deeply it is wrapped, an error's sentinel alone decides the reply. */
  lemma SentinelDecides(e: Error, k: Sentinel)
    requires OneSentinel(e) && Mentions(e, k) && FindWallet(e).None?
    ensures ReplyTo(ERROR_TABLE, e) == ERROR_TABLE[RowOf(k)].reply
  {
    TableComplete();
    ScanFinds(ERROR_TABLE, e, ERROR_TABLE[RowOf(k)]);
  }

  /** With two sentinels in one tree the first row would win: order matters for such a tree. */
  lemma TwoSentinelsDependOnOrder()
    ensures exists e, table: seq<Row> ::
              Keyed(table) && (forall row :: HasRow(table, row) <==> HasRow(ERROR_TABLE[..2], row)) &&
              Scan(table, e) != Scan(ERROR_TABLE[..2], e)
  {
    var e := Wrap([], [Is(SessionNotFound), Is(SessionExpired)]);
    assert Mentions(e.causes[0], SessionNotFound) && Mentions(e.causes[1], SessionExpired);
    var rows := ERROR_TABLE[..2];
    var table := [rows[1], rows[0]];
    forall row ensures HasRow(table, row) <==> HasRow(rows, row) {
      assert table[0] == rows[1] && table[1] == rows[0];
    }
    assert Scan(table, e) == rows[1].reply && Scan(rows, e) == rows[0].reply;
  }

  /** The codes a wallet may send that are echoed as they are. */
  predicate Echoed(code: Bytes) {
    || code == "access_denied" || code == "invalid_request" || code == "invalid_client"
    || code == "vp_formats_not_supported" || code == "invalid_request_uri" || code == "invalid_request_object"
  }

  /** A wallet error with a code clipped at 256 bytes is answered with 400 and the code sent if that is one
      of the six, and invalid_request otherwise. */
  lemma WalletReply(e: Error, sent: Bytes)
    requires e.FromWallet?
    requires if |sent| <= 256 then e.code == sent else |e.code| > 256
    ensures var reply := ReplyTo(ERROR_TABLE, e);
            reply.status == 400 && reply.code == if Echoed(sent) then sent else "invalid_request"
  {
    if |sent| > 256 { assert |e.code| > 30 && |sent| > 30; }
  }

  predicate Internal(k: Sentinel) {
    || k.NoRegistration? || k.BadConfig? || k.BadSpec? || k.SessionInvalid? || k.SessionNotConsumed?
    || k.TranscriptParams? || k.TransactionDataDisabled? || k.TransactionDataInvalid?
    || k.SANMismatch? || k.UnsupportedClientIDPrefix?
  }

  /** The reply to each class of sentinel: 404 for a session that is gone, 500 server_error for the
      verifier's own failures, 400 for all else; two 400 codes differ from invalid_request. */
  lemma ReplyByClass(e: Error, k: Sentinel)
    requires OneSentinel(e) && Mentions(e, k) && FindWallet(e).None?
    ensures var reply := ReplyTo(ERROR_TABLE, e);
            && reply.status == (if Internal(k) then 500
                                else if k.SessionNotFound? || k.SessionExpired? then 404
                                else 400)
            && reply.code == (if Internal(k) then "server_error"
                              else if k.RequestURIConsumed? then "invalid_request_uri"
                              else if k.OriginNotExpected? then "invalid_client"
                              else "invalid_request")
            && (Internal(k) ==> reply.description == "internal error")
  {
    SentinelDecides(e, k);
    RowStatus(k);
    if !Internal(k) { RowCode(k); }
  }

  lemma RowStatus(k: Sentinel)
    ensures ERROR_TABLE[RowOf(k)].reply.status == (if Internal(k) then 500
                                                   else if k.SessionNotFound? || k.SessionExpired? then 404
                                                   else 400)
    ensures Internal(k) ==> ERROR_TABLE[RowOf(k)].reply == INTERNAL_ERROR
  {
  }

  lemma RowCode(k: Sentinel)
    requires !Internal(k)
    ensures ERROR_TABLE[RowOf(k)].reply.code == (if k.RequestURIConsumed? then INVALID_REQUEST_URI
                                                 else if k.OriginNotExpected? then INVALID_CLIENT
                                                 else INVALID_REQUEST)
  {
  }

  /** An error without a sentinel is an internal one. */
  lemma ForeignReply(e: Error)
    requires (forall k :: !Mentions(e, k)) && FindWallet(e).None?
    ensures ReplyTo(ERROR_TABLE, e) == Reply(500, "server_error", "internal error")
  {
    ScanMisses(ERROR_TABLE, e);
  }

  /** Capping a wallet-sent code at 256 bytes never changes the code that is echoed. */
  lemma ClipKeepsCode(code: Bytes)
    ensures NormalizeWalletCode(Clip(code, MAX_WALLET_ERROR_LEN)) == NormalizeWalletCode(code)
  {
    if |code| > MAX_WALLET_ERROR_LEN {
      assert |Clip(code, MAX_WALLET_ERROR_LEN)| > 30;
    }
  }
}
