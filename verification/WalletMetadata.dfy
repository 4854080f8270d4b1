/** The wallet-metadata hook: validated, size-capped, stored verbatim. */
module WalletMetadata {
  import opened GoStrings
  import opened Errors
  import opened Session
  import opened Engine

  const MAX_WALLET_METADATA_BYTES := 65536

  /** What `AbsorbWalletMetadata` returns (`None` is success) and what it leaves in the session. */
  function Absorb(lib: Library, s: SessionData, raw: Bytes): (SessionData, Option<Error>) {
    if |raw| == 0 || |raw| > MAX_WALLET_METADATA_BYTES || !lib.isJSONDocument(raw) then
      (s, Some(Wrapping(WalletMetadataInvalid, [])))
    else (s.(walletMetadata := raw), None)
  }

  /** A document is kept exactly when it has between 1 and 65536 bytes and is JSON; nothing else changes. */
  lemma AbsorbIff(lib: Library, s: SessionData, raw: Bytes)
    ensures Absorb(lib, s, raw).1.None? <==> 1 <= |raw| <= 65536 && lib.isJSONDocument(raw)
    ensures Absorb(lib, s, raw).1.None? ==> Absorb(lib, s, raw).0 == s.(walletMetadata := raw)
    ensures Absorb(lib, s, raw).1.Some? ==>
              && Absorb(lib, s, raw).0 == s
              && OneSentinel(Absorb(lib, s, raw).1.value)
              && Mentions(Absorb(lib, s, raw).1.value, WalletMetadataInvalid)
  {
  }

  method AbsorbWalletMetadata(e: Engine, s: Session?, raw: Bytes) returns (err: Option<Error>)
    modifies s
    ensures s == null ==> err == Some(Is(SessionInvalid))
    ensures s != null ==> (s.Snapshot(), err) == Absorb(e.setup.lib, old(s.Snapshot()), raw)
  {
    if s == null { return Some(Is(SessionInvalid)); }
    if |raw| == 0 || |raw| > MAX_WALLET_METADATA_BYTES { return Some(Wrapping(WalletMetadataInvalid, [])); }
    if !e.setup.lib.isJSONDocument(raw) { return Some(Wrapping(WalletMetadataInvalid, [])); }
    s.walletMetadata := raw;
    return None;
  }
}
