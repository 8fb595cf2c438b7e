/** The protocol's messages, as `codec.rs` declares them. */
module Messages {
  import opened Basics

  /** SQLite's five kinds of value. A `Real` is the 64 bits of its `f64`. */
  datatype Value = Null | Integer(i: i64) | Real(bits: u64) | TextValue(t: Text) | Blob(b: Bytes)

  datatype Change = Change(
    table: Text, pk: Bytes, cid: Text, val: Value,
    colVersion: i64, dbVersion: i64, cl: i64, seqNo: i64)

  datatype Request = StatusRequest | ChangesRequest(since: i64)

  datatype ChangesResponse = ChangesResponse(siteId: SiteId, changes: seq<Change>)

  datatype Response = StatusResponse(siteId: SiteId, dbVersion: i64) | Changes(response: ChangesResponse)

  datatype NodeStatus = NodeStatus(siteId: SiteId, dbVersion: i64, key: Text, route: Bytes)

  datatype Envelope = Envelope(sender: Text, contents: Bytes)

  datatype Error =
    | Capnp          // malformed message
    | NotInSchema    // unknown union discriminant
    | Utf8           // a text that is not UTF-8
    | TooLarge       // past what one segment can address; Rust panics
    | Panicked       // index out of range; Rust panics
    | BadSeal        // authentication failed
    | Storage        // SQLite or the table store failed
    | Network        // a Veilid call failed
    | Other(reason: string)
}
