/** The session record, as a value and as the object handlers hold. */
module Session {
  import opened GoStrings

  datatype Flow = SameDevice | CrossDevice | DCAPI | OtherFlow(name: Bytes)

  const FORMAT_MDOC: Bytes := "mso_mdoc"

  datatype CredentialQuery = CredentialQuery(id: Bytes, format: Bytes)

  datatype Query = Query(credentials: seq<CredentialQuery>)

  datatype Registration = Registration(clientName: Bytes, clientID: Bytes, registryURI: Bytes, intendedUseID: Bytes) {
    predicate IsZero() {
      this == Registration([], [], [], [])
    }
  }

  /** The value of a session: what a JSON snapshot of it carries. */
  datatype SessionData = SessionData(
    id: Bytes, flow: Flow, clientID: Bytes,
    nonce: Bytes, state: Bytes,
    responseURI: Bytes, returnURI: Bytes,
    query: Query, registration: Registration, wrprc: Bytes,
    transactionData: seq<Bytes>, expectedOrigins: seq<Bytes>,
    ephemeralKey: Bytes,
    createdAt: int, expiresAt: int,
    requestObjectServed: bool, walletMetadata: Bytes, consumed: bool,
    responseCode: Bytes, responseCodeUsed: bool)
  {
    /** The part of a session that is fixed at its creation. */
    function Core(): SessionData {
      this.(requestObjectServed := false, walletMetadata := [], consumed := false,
            responseCode := [], responseCodeUsed := false)
    }
  }

  /** The mutable record behind a `*Session`. */
  class Session {
    var id: Bytes
    var flow: Flow
    var clientID: Bytes
    var nonce: Bytes
    var state: Bytes
    var responseURI: Bytes
    var returnURI: Bytes
    var query: Query
    var registration: Registration
    var wrprc: Bytes
    var transactionData: seq<Bytes>
    var expectedOrigins: seq<Bytes>
    var ephemeralKey: Bytes
    var createdAt: int
    var expiresAt: int
    var requestObjectServed: bool
    var walletMetadata: Bytes
    var consumed: bool
    var responseCode: Bytes
    var responseCodeUsed: bool

    /** `json.Marshal` as a value: everything the record holds. */
    function Snapshot(): SessionData
      reads this
    {
      SessionData(id, flow, clientID, nonce, state, responseURI, returnURI, query, registration, wrprc,
                  transactionData, expectedOrigins, ephemeralKey, createdAt, expiresAt,
                  requestObjectServed, walletMetadata, consumed, responseCode, responseCodeUsed)
    }

    /** `json.Unmarshal` into a new record. */
    constructor (d: SessionData)
      ensures Snapshot() == d
    {
      id, flow, clientID := d.id, d.flow, d.clientID;
      nonce, state := d.nonce, d.state;
      responseURI, returnURI := d.responseURI, d.returnURI;
      query, registration, wrprc := d.query, d.registration, d.wrprc;
      transactionData, expectedOrigins := d.transactionData, d.expectedOrigins;
      ephemeralKey, createdAt, expiresAt := d.ephemeralKey, d.createdAt, d.expiresAt;
      requestObjectServed, walletMetadata, consumed := d.requestObjectServed, d.walletMetadata, d.consumed;
      responseCode, responseCodeUsed := d.responseCode, d.responseCodeUsed;
    }
  }
}
