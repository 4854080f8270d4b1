/** Error values: the engine's sentinels, wallet-sent errors, foreign errors and
    `fmt.Errorf` nodes that wrap one or two of them. */
module Errors {
  import opened GoStrings

  datatype Sentinel =
    | SessionInvalid | SessionNotFound | SessionExpired | SessionConsumed | SessionNotConsumed
    | BadConfig | SANMismatch | UnsupportedClientIDPrefix | BadSpec | NoRegistration | FlowMismatch
    | RequestURIConsumed | WalletMetadataInvalid
    | BodyTooLarge | MalformedResponse | DecryptFailed | StateMismatch | APVMismatch | UnknownCredentialID
    | NoResponseCode | ResponseCodeMismatch | ResponseCodeConsumed
    | OriginNotExpected
    | TransactionDataDisabled | TransactionDataInvalid | TransactionDataMissing
    | TransactionDataUnexpected | TransactionDataMismatch
    | TranscriptParams

  datatype Error =
    | Is(sentinel: Sentinel)
    | FromWallet(code: Bytes, description: Bytes)
    | Foreign
    | Wrap(detail: Bytes, causes: seq<Error>)

  /** `errors.Is(e, k)`: `k` occurs somewhere in the tree. */
  predicate Mentions(e: Error, k: Sentinel)
    decreases e
  {
    match e
    case Is(s) => s == k
    case Wrap(_, causes) => exists i :: 0 <= i < |causes| && Mentions(causes[i], k)
    case _ => false
  }

  /** `errors.As(e, *WalletError)`: the first wallet error in depth-first order. */
  function FindWallet(e: Error): (r: Option<Error>)
    ensures r.Some? ==> r.value.FromWallet?
    decreases e, 0
  {
    match e
    case FromWallet(_, _) => Some(e)
    case Wrap(_, causes) => FindWalletIn(causes)
    case _ => None
  }

  function FindWalletIn(es: seq<Error>): (r: Option<Error>)
    ensures r.Some? ==> r.value.FromWallet?
    decreases es, 1
  {
    if |es| == 0 then None
    else if FindWallet(es[0]).Some? then FindWallet(es[0])
    else FindWalletIn(es[1..])
  }

  /** All the sentinels the tree mentions are one and the same. */
  ghost predicate OneSentinel(e: Error) {
    forall j, k :: Mentions(e, j) && Mentions(e, k) ==> j == k
  }

  /** `fmt.Errorf("%w: ...", sentinel)`; `detail` keeps the clipped identifier the text quotes. */
  function Wrapping(k: Sentinel, detail: Bytes): (e: Error)
    ensures Mentions(e, k) && OneSentinel(e) && e.Wrap? && e.detail == detail
  {
    var e := Wrap(detail, [Is(k)]);
    assert Mentions(e.causes[0], k);
    e
  }

  /** `fmt.Errorf("%w: ...: %w", sentinel, cause)` around an error of another library. */
  function WrappingForeign(k: Sentinel): (e: Error)
    ensures Mentions(e, k) && OneSentinel(e)
  {
    var e := Wrap([], [Is(k), Foreign]);
    assert Mentions(e.causes[0], k);
    e
  }

  datatype Result<+T> = Ok(value: T) | Err(error: Error) {
    predicate IsFailure() {
      Err?
    }

    function PropagateFailure<U>(): Result<U>
      requires Err?
    {
      Err(error)
    }

    function Extract(): T
      requires Ok?
    {
      value
    }
  }

  /** `len(s) > n` keeps the first `n` bytes and appends a three-byte ellipsis. */
  function Clip(s: Bytes, n: nat): (r: Bytes)
    ensures |r| <= n + 3
    ensures |s| <= n ==> r == s
  {
    if |s| > n then s[..n] + ['\U{E2}', '\U{80}', '\U{A6}'] else s
  }
}
