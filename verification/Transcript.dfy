/** The SessionTranscript of an mdoc presentation (Annex B.2 and Annex A of OpenID4VP 1.0). */
module Transcript {
  import opened GoStrings
  import opened Errors
  import opened Session
  import opened Engine
  import opened VPToken
  import NewSession
  import Response

  datatype Handover =
    | OID4VPHandover(clientID: Bytes, nonce: Bytes, jwkThumbprint: Bytes, responseURI: Bytes)
    | OID4VPDCAPIHandover(origin: Bytes, nonce: Bytes, jwkThumbprint: Bytes)

  function SessionTranscriptFor(p: Presentation): Result<Handover> {
    if p.format != FORMAT_MDOC then Err(Is(TranscriptParams))
    else if p.nonce == [] || p.jwkThumbprint == [] then Err(Is(TranscriptParams))
    else if p.origin != [] then Ok(OID4VPDCAPIHandover(p.origin, p.nonce, p.jwkThumbprint))
    else if p.clientID == [] || p.responseURI == [] then Err(Is(TranscriptParams))
    else Ok(OID4VPHandover(p.clientID, p.nonce, p.jwkThumbprint, p.responseURI))
  }

  lemma OriginsNotEmpty(lib: Library, origin: Bytes)
    requires LawfulURLs(lib) && NewSession.ValidOrigin(lib, origin)
    ensures origin != []
  {
  }

  /** Every mdoc presentation bound to a session of the engine has a transcript: the DCAPI one
      exactly for a DCAPI session with one of its origins, the request_uri one otherwise. */
  lemma TranscriptTotal(e: Settings, s: SessionData, origin: Bytes, p: Presentation)
    requires Ready(e) && Lawful(e.lib) && NewSession.Shape(e, s)
    requires Response.BoundTo(e.lib, s, origin, p) && p.format == FORMAT_MDOC
    requires if s.flow == DCAPI then origin in s.expectedOrigins else origin == []
    ensures var r := SessionTranscriptFor(p);
            && r.Ok?
            && r.value == (if s.flow == DCAPI then OID4VPDCAPIHandover(origin, s.nonce, Response.ThumbprintOf(e.lib, s))
                           else OID4VPHandover(e.clientID, s.nonce, Response.ThumbprintOf(e.lib, s), s.responseURI))
  {
    if s.flow == DCAPI {
      var i :| 0 <= i < |s.expectedOrigins| && s.expectedOrigins[i] == origin;
      OriginsNotEmpty(e.lib, s.expectedOrigins[i]);
    }
  }

  /** A transcript is built only for mdoc, with a nonce, a thumbprint and all of its parameters: with an origin the
      DCAPI handover, without one the request_uri handover; there is one error. */
  lemma TranscriptIff(p: Presentation)
    ensures SessionTranscriptFor(p).Ok? <==>
              && p.format == "mso_mdoc" && p.nonce != [] && p.jwkThumbprint != []
              && (p.origin == [] ==> p.clientID != [] && p.responseURI != [])
    ensures SessionTranscriptFor(p).Ok? ==>
              SessionTranscriptFor(p).value ==
              if p.origin != [] then OID4VPDCAPIHandover(p.origin, p.nonce, p.jwkThumbprint)
              else OID4VPHandover(p.clientID, p.nonce, p.jwkThumbprint, p.responseURI)
    ensures SessionTranscriptFor(p).Err? ==> SessionTranscriptFor(p).error == Is(TranscriptParams)
  {
  }
}
