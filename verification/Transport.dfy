/** Keys, sealed messages and the two ends of an `app_call`. The cryptosystem is
    abstract: all that is used of it is that opening undoes sealing, that both
    ends of a key agreement get the same key, and that printing a key can be
    parsed back. */
module Transport {
  import opened Basics
  import opened Messages
  import opened Wire
  import opened Layout
  import opened RoundTrip
  import opened Codec

  type Key = Bytes
  type Secret = Bytes
  type Shared = Bytes

  const NONCE_LENGTH := 24

  type Nonce = n: Bytes | |n| == NONCE_LENGTH witness seq(NONCE_LENGTH, _ => 0)

  datatype System = System(
    publicOf: Secret -> Key,
    agree: (Key, Secret) -> Shared,
    seal: (Bytes, Nonce, Shared) -> Bytes,
    unseal: (Bytes, Nonce, Shared) -> Option<Bytes>,
    show: Key -> Text,
    parse: Text -> Option<Key>)

  ghost predicate Lawful(sys: System) {
    && (forall m, n, k :: sys.unseal(sys.seal(m, n, k), n, k) == Some(m))
    && (forall a, b :: sys.agree(sys.publicOf(a), b) == sys.agree(sys.publicOf(b), a))
    && (forall k :: sys.parse(sys.show(k)) == Some(k))
  }

  /** Two letters for every byte. */
  function Spelled(b: Bytes): (t: Bytes)
    ensures |t| == 2 * |b|
  {
    if b == [] then [] else [0x40 + b[0] / 0x10, 0x40 + b[0] % 0x10] + Spelled(b[1..])
  }

  function Unspelled(t: Bytes): Option<Bytes> {
    if t == [] then Some([])
    else if |t| == 1 || t[0] < 0x40 || t[0] >= 0x50 || t[1] < 0x40 || t[1] >= 0x50 then None
    else
      match Unspelled(t[2..])
      case None => None
      case Some(rest) => Some([0x10 * (t[0] - 0x40) + (t[1] - 0x40)] + rest)
  }

  lemma {:induction false} SpelledIsRead(b: Bytes)
    ensures ValidUtf8(Spelled(b)) && Unspelled(Spelled(b)) == Some(b)
  {
    if b == [] {
    } else {
      SpelledIsRead(b[1..]);
      var t := Spelled(b);
      assert t[1..][1..] == Spelled(b[1..]) && t[2..] == Spelled(b[1..]);
      assert 0x10 * (t[0] - 0x40) + (t[1] - 0x40) == b[0];
      assert b == [b[0]] + b[1..];
    }
  }

  function Shown(key: Key): Text {
    SpelledIsRead(key);
    Spelled(key)
  }

  /** The laws can be met, and so nothing proved from them is empty. This system
      keeps no secrets; the laws are not about that. */
  lemma LawsCanBeMet() returns (sys: System)
    ensures Lawful(sys)
  {
    sys := System(
      secret => secret,
      (key, secret) => [],
      (plain, nonce, shared) => plain,
      (message, nonce, shared) => Some(message),
      key => Shown(key),
      text => Unspelled(text));
    forall k ensures sys.parse(sys.show(k)) == Some(k) {
      SpelledIsRead(k);
    }
  }

  /** `Crypto`: our secret and the other side's public key. */
  datatype Crypto = Crypto(secret: Secret, recipient: Key)

  function Seal(sys: System, c: Crypto, plain: Bytes, nonce: Nonce): Bytes {
    nonce + sys.seal(plain, nonce, sys.agree(c.recipient, c.secret))
  }

  function Unseal(sys: System, c: Crypto, message: Bytes): Result<Bytes, Error> {
    if |message| < NONCE_LENGTH then Err(Panicked)
    else
      match sys.unseal(message[NONCE_LENGTH..], message[..NONCE_LENGTH], sys.agree(c.recipient, c.secret))
      case None => Err(BadSeal)
      case Some(plain) => Ok(plain)
  }

  /** The two ends of one conversation. */
  ghost predicate Paired(sys: System, a: Crypto, b: Crypto) {
    a.recipient == sys.publicOf(b.secret) && b.recipient == sys.publicOf(a.secret)
  }

  /** A sealed message is the 24 bytes of its nonce and what was encrypted with it
      under the key agreed on. */
  lemma SealIsLaidOut(sys: System, c: Crypto, plain: Bytes, nonce: Nonce)
    ensures |nonce| == 24 && |Seal(sys, c, plain, nonce)| >= 24
    ensures Seal(sys, c, plain, nonce)[..24] == nonce
    ensures Seal(sys, c, plain, nonce)[24..] == sys.seal(plain, nonce, sys.agree(c.recipient, c.secret))
  {
  }

  /** Exactly when a message opens: it is long enough and what follows the nonce is
      authentic under the key agreed on. */
  lemma UnsealIff(sys: System, c: Crypto, message: Bytes, plain: Bytes)
    ensures Unseal(sys, c, message) == Ok(plain) <==>
      && |message| >= 24
      && sys.unseal(message[24..], message[..24], sys.agree(c.recipient, c.secret)) == Some(plain)
  {
  }

  lemma UnsealSeal(sys: System, a: Crypto, b: Crypto, plain: Bytes, nonce: Nonce)
    requires Lawful(sys) && Paired(sys, a, b)
    ensures Unseal(sys, b, Seal(sys, a, plain, nonce)) == Ok(plain)
  {
    SealIsLaidOut(sys, a, plain, nonce);
    var message := Seal(sys, a, plain, nonce);
    assert message[..NONCE_LENGTH] == nonce;
    assert message[NONCE_LENGTH..] == sys.seal(plain, nonce, sys.agree(a.recipient, a.secret));
  }

  /** The message buffer that the cryptosystem works on in place. */
  class Buffer {
    var bytes: Bytes

    constructor (bytes: Bytes)
      ensures this.bytes == bytes
    {
      this.bytes := bytes;
    }

    method EncryptInPlace(sys: System, nonce: Nonce, key: Shared)
      modifies this
      ensures bytes == sys.seal(old(bytes), nonce, key)
    {
      bytes := sys.seal(bytes, nonce, key);
    }

    method DecryptInPlace(sys: System, nonce: Nonce, key: Shared) returns (ok: bool)
      modifies this
      ensures ok <==> sys.unseal(old(bytes), nonce, key).Some?
      ensures bytes == if ok then sys.unseal(old(bytes), nonce, key).value else old(bytes)
    {
      var plain := sys.unseal(bytes, nonce, key);
      if plain.None? {
        return false;
      }
      bytes := plain.value;
      return true;
    }
  }

  /** `Crypto::encode`, of an encoded item. Whoever holds the other end of the
      conversation can read it. */
  method Encode(sys: System, c: Crypto, plain: Bytes, nonce: Nonce) returns (sealed: Bytes)
    ensures sealed == Seal(sys, c, plain, nonce)
    ensures Lawful(sys) ==> forall other :: Paired(sys, c, other) ==> Unseal(sys, other, sealed) == Ok(plain)
  {
    var message := new Buffer(plain);
    message.EncryptInPlace(sys, nonce, sys.agree(c.recipient, c.secret));
    sealed := nonce + message.bytes;
    forall other | Lawful(sys) && Paired(sys, c, other) ensures Unseal(sys, other, sealed) == Ok(plain) {
      UnsealSeal(sys, c, other, plain, nonce);
    }
  }

  /** `Crypto::decode`, up to the decoding of the item. */
  method Decode(sys: System, c: Crypto, sealed: Bytes) returns (r: Result<Bytes, Error>)
    ensures r == Unseal(sys, c, sealed)
    ensures Lawful(sys) ==> forall other, plain, nonce ::
      Paired(sys, other, c) && sealed == Seal(sys, other, plain, nonce) ==> r == Ok(plain)
  {
    forall other, plain, nonce | Lawful(sys) && Paired(sys, other, c) && sealed == Seal(sys, other, plain, nonce)
      ensures Unseal(sys, c, sealed) == Ok(plain)
    {
      UnsealSeal(sys, other, c, plain, nonce);
    }
    if |sealed| < NONCE_LENGTH {
      return Err(Panicked);
    }
    var message := new Buffer(sealed[NONCE_LENGTH..]);
    var ok := message.DecryptInPlace(sys, sealed[..NONCE_LENGTH], sys.agree(c.recipient, c.secret));
    if !ok {
      return Err(BadSeal);
    }
    return Ok(message.bytes);
  }

  // ------------------------------------------------------------------ peers

  /** A node's own identity. */
  datatype Identity = Identity(dhtKey: Key, secret: Secret)

  datatype Peer = Peer(name: Text, dhtKey: Key, status: Option<NodeStatus>, routeId: Option<Bytes>)

  /** `Conclave::crypto`: needs the key the peer has announced. */
  function CryptoFor(sys: System, me: Identity, peer: Peer): Result<Crypto, Error> {
    match peer.status
    case None => Err(Other("peer key not found"))
    case Some(status) =>
      match sys.parse(status.key)
      case None => Err(Network)
      case Some(key) => Ok(Crypto(me.secret, key))
  }

  // ----------------------------------------------------------- one exchange

  function RequestBytes(q: Request): Bytes {
    RequestRoundTrip(q);
    Frame(SegOfRequest(q))
  }

  function ResponseBytes(r: Response): Result<Bytes, Error> {
    if !ResponseFits(r) then Err(TooLarge)
    else
      ResponseRoundTrip(r);
      Ok(Frame(SegOfResponse(r)))
  }

  function EnvelopeBytes(e: Envelope): Result<Bytes, Error> {
    if !EnvelopeFits(e) then Err(TooLarge)
    else
      EnvelopeRoundTrip(e);
      Ok(Frame(SegOfEnvelope(e)))
  }

  /** A request as it travels: from `me`, sealed for whoever holds `recipient`. */
  function RequestEnvelope(sys: System, me: Identity, recipient: Key, q: Request, nonce: Nonce): Envelope {
    Envelope(sys.show(me.dhtKey), Seal(sys, Crypto(me.secret, recipient), RequestBytes(q), nonce))
  }

  /** The request `Conclave::changes` sends. */
  function Ask(sys: System, me: Identity, peer: Peer, since: i64, nonce: Nonce): Result<Bytes, Error> {
    var crypto :- CryptoFor(sys, me, peer);
    var contents := Seal(sys, crypto, RequestBytes(ChangesRequest(since)), nonce);
    var bytes :- EnvelopeBytes(Envelope(sys.show(me.dhtKey), contents));
    if peer.routeId.None? then Err(Other("no route to peer")) else Ok(bytes)
  }

  /** Exactly when a call goes out, and what: the peer's key is known and parses, a
      route to it was imported, and the request fits in its envelope. */
  lemma AskIff(sys: System, me: Identity, peer: Peer, since: i64, nonce: Nonce)
    ensures Ask(sys, me, peer, since, nonce).Ok? <==>
      && peer.status.Some? && sys.parse(peer.status.value.key).Some? && peer.routeId.Some?
      && EnvelopeFits(RequestEnvelope(sys, me, sys.parse(peer.status.value.key).value, ChangesRequest(since), nonce))
    ensures Ask(sys, me, peer, since, nonce).Ok? ==>
      DecodeEnvelope(Ask(sys, me, peer, since, nonce).value) ==
        Ok(RequestEnvelope(sys, me, sys.parse(peer.status.value.key).value, ChangesRequest(since), nonce))
  {
    hide SegOfEnvelope, DecodeEnvelope, Frame, EnvelopeFits, Seal, RequestBytes;
    if peer.status.Some? && sys.parse(peer.status.value.key).Some? {
      var e := RequestEnvelope(sys, me, sys.parse(peer.status.value.key).value, ChangesRequest(since), nonce);
      if EnvelopeFits(e) {
        EnvelopeRoundTrip(e);
      }
    }
  }

  /** What a responder has to say: its status, and its changes above a version. */
  datatype Answers = Answers(status: (SiteId, i64), changes: i64 -> (SiteId, seq<Change>))

  function ResponseTo(db: Answers, q: Request): Response {
    match q
    case StatusRequest => StatusResponse(db.status.0, db.status.1)
    case ChangesRequest(since) => Changes(ChangesResponse(db.changes(since).0, db.changes(since).1))
  }

  /** What a responder makes of a call: nothing when it comes from a stranger,
      otherwise the request and how to talk to its sender. */
  function Heard(sys: System, me: Identity, peers: map<Text, Peer>, message: Bytes)
    : Result<Option<(Crypto, Request)>, Error>
  {
    var envelope :- DecodeEnvelope(message);
    if envelope.sender !in peers then Ok(None)
    else
      var crypto :- CryptoFor(sys, me, peers[envelope.sender]);
      var plain :- Unseal(sys, crypto, envelope.contents);
      var q :- DecodeRequest(plain);
      Ok(Some((crypto, q)))
  }

  /** `handle_update` for an `AppCall`: a stranger gets no reply. */
  function Reply(sys: System, me: Identity, peers: map<Text, Peer>, db: Answers, message: Bytes, nonce: Nonce)
    : Result<Option<Bytes>, Error>
  {
    var heard :- Heard(sys, me, peers, message);
    if heard.None? then Ok(None)
    else SealedReply(sys, me, heard.value.0, ResponseTo(db, heard.value.1), nonce)
  }

  function SealedReply(sys: System, me: Identity, crypto: Crypto, response: Response, nonce: Nonce)
    : Result<Option<Bytes>, Error>
  {
    var bytes :- ResponseBytes(response);
    var reply :- EnvelopeBytes(Envelope(sys.show(me.dhtKey), Seal(sys, crypto, bytes, nonce)));
    Ok(Some(reply))
  }

  /** Two calls agree on success and, if they succeed, on the value. */
  predicate SameOutcome<T(==)>(x: Result<T, Error>, y: Result<T, Error>) {
    (x.Ok? <==> y.Ok?) && (x.Ok? ==> x.value == y.value)
  }

  /** The first half of `Conclave::changes`, with the buffers it works on. */
  method PrepareCall(sys: System, me: Identity, peer: Peer, since: i64, nonce: Nonce)
    returns (r: Result<Bytes, Error>)
    ensures SameOutcome(r, Ask(sys, me, peer, since, nonce))
  {
    var crypto :- CryptoFor(sys, me, peer);
    var request := EncodeRequest(ChangesRequest(since));
    var contents := Encode(sys, crypto, request.value, nonce);
    var bytes :- EncodeEnvelope(Envelope(sys.show(me.dhtKey), contents));
    if peer.routeId.None? {
      return Err(Other("no route to peer"));
    }
    return Ok(bytes);
  }

  /** The second half: what arrives is opened and decoded. */
  method FinishCall(sys: System, me: Identity, peer: Peer, bytes: Bytes)
    returns (r: Result<ChangesResponse, Error>)
    ensures r == ReadReply(sys, me, peer, bytes)
  {
    var crypto :- CryptoFor(sys, me, peer);
    var envelope :- DecodeEnvelope(bytes);
    var plain :- Decode(sys, crypto, envelope.contents);
    var response :- ReadResponse(plain);
    match response
    case Changes(changes) =>
      return Ok(changes);
    case StatusResponse(_, _) =>
      return Err(Other("invalid response"));
  }

  /** What `Conclave::changes` makes of the reply. */
  function ReadReply(sys: System, me: Identity, peer: Peer, bytes: Bytes): Result<ChangesResponse, Error> {
    var crypto :- CryptoFor(sys, me, peer);
    var envelope :- DecodeEnvelope(bytes);
    var plain :- Unseal(sys, crypto, envelope.contents);
    var r :- DecodeResponse(plain);
    match r
    case Changes(response) => Ok(response)
    case StatusResponse(_, _) => Err(Other("invalid response"))
  }

  /** `me` knows the key of `other`. */
  ghost predicate Knows(sys: System, peer: Peer, other: Identity) {
    peer.status.Some? && sys.parse(peer.status.value.key) == Some(sys.publicOf(other.secret))
  }

  /** Exactly what is made of a reply: its envelope decodes, its contents open under
      the key of the peer that was asked, and they are a list of changes. */
  lemma ReadReplyIff(sys: System, me: Identity, peer: Peer, bytes: Bytes, response: ChangesResponse)
    ensures ReadReply(sys, me, peer, bytes) == Ok(response) <==>
      && peer.status.Some? && sys.parse(peer.status.value.key).Some?
      && DecodeEnvelope(bytes).Ok?
      && var plain := Unseal(sys, Crypto(me.secret, sys.parse(peer.status.value.key).value),
                             DecodeEnvelope(bytes).value.contents);
      && plain.Ok? && DecodeResponse(plain.value) == Ok(Changes(response))
  {
    hide DecodeEnvelope, DecodeResponse, Unseal;
  }

  /** A known sender's request, of either kind, is understood, and what goes back is
      the sealed answer to that request or the error of its size. */
  lemma RequestArrives(
      sys: System, a: Identity, b: Identity, peers: map<Text, Peer>, db: Answers,
      q: Request, message: Bytes, n1: Nonce, n2: Nonce)
    requires Lawful(sys)
    requires sys.show(a.dhtKey) in peers && Knows(sys, peers[sys.show(a.dhtKey)], a)
    requires EnvelopeBytes(RequestEnvelope(sys, a, sys.publicOf(b.secret), q, n1)) == Ok(message)
    ensures var crypto := Crypto(b.secret, sys.publicOf(a.secret));
      && Heard(sys, b, peers, message) == Ok(Some((crypto, q)))
      && Reply(sys, b, peers, db, message, n2) ==
           match q
           case StatusRequest =>
             SealedReply(sys, b, crypto, StatusResponse(db.status.0, db.status.1), n2)
           case ChangesRequest(since) =>
             var (siteId, changes) := db.changes(since);
             SealedReply(sys, b, crypto, Changes(ChangesResponse(siteId, changes)), n2)
  {
    hide SegOfEnvelope, Frame, EnvelopeFits, DecodeEnvelope, Seal, Unseal, SealedReply, RequestBytes, DecodeRequest;
    var ca, cb := Crypto(a.secret, sys.publicOf(b.secret)), Crypto(b.secret, sys.publicOf(a.secret));
    EnvelopeRoundTrip(RequestEnvelope(sys, a, sys.publicOf(b.secret), q, n1));
    UnsealSeal(sys, ca, cb, RequestBytes(q), n1);
    RequestIsRead(q);
  }

  lemma RequestIsRead(q: Request)
    ensures DecodeRequest(RequestBytes(q)) == Ok(q)
  {
    RequestRoundTrip(q);
  }

  /** A response that fits goes out from its responder, and the other end of the
      conversation reads it. */
  lemma ReplyIsRead(sys: System, me: Identity, c: Crypto, other: Crypto, response: Response, nonce: Nonce)
    requires Lawful(sys) && Paired(sys, c, other)
    ensures var reply := SealedReply(sys, me, c, response, nonce);
      && (reply.Ok? <==>
            && ResponseFits(response)
            && EnvelopeFits(Envelope(sys.show(me.dhtKey), Seal(sys, c, ResponseBytes(response).value, nonce))))
      && (reply.Ok? ==>
            && reply.value.Some? && DecodeEnvelope(reply.value.value).Ok?
            && var envelope := DecodeEnvelope(reply.value.value).value;
            && envelope.sender == sys.show(me.dhtKey) && Unseal(sys, other, envelope.contents).Ok?
            && DecodeResponse(Unseal(sys, other, envelope.contents).value) == Ok(response))
  {
    hide SegOfEnvelope, SegOfResponse, Frame, EnvelopeFits, ResponseFits, DecodeEnvelope, DecodeResponse, Seal, Unseal;
    if ResponseFits(response) {
      ResponseRoundTrip(response);
      var bytes := ResponseBytes(response).value;
      UnsealSeal(sys, c, other, bytes, nonce);
      var envelope := Envelope(sys.show(me.dhtKey), Seal(sys, c, bytes, nonce));
      if EnvelopeFits(envelope) {
        EnvelopeRoundTrip(envelope);
      }
    }
  }

  /** Both the response and the envelope around it fit in a message. */
  predicate ReplyFits(sys: System, a: Identity, b: Identity, response: ChangesResponse, nonce: Nonce) {
    && ResponseFits(Changes(response))
    && EnvelopeFits(Envelope(sys.show(b.dhtKey),
         Seal(sys, Crypto(b.secret, sys.publicOf(a.secret)), ResponseBytes(Changes(response)).value, nonce)))
  }

  /** A call goes out to a peer with a route when its envelope fits. */
  predicate CallFits(sys: System, a: Identity, b: Identity, since: i64, nonce: Nonce) {
    EnvelopeFits(RequestEnvelope(sys, a, sys.publicOf(b.secret), ChangesRequest(since), nonce))
  }

  /** The bytes of that call. */
  function CallBytes(sys: System, a: Identity, b: Identity, since: i64, nonce: Nonce): Bytes
    requires CallFits(sys, a, b, since, nonce)
  {
    EnvelopeBytes(RequestEnvelope(sys, a, sys.publicOf(b.secret), ChangesRequest(since), nonce)).value
  }

  /** End-to-end transparency. When puller and responder know each other's keys and
      the puller has a route and a request that fits, the exchange succeeds exactly
      when the response and its envelope fit in a message, and then the puller gets
      exactly the responder's `changes`. */
  lemma EndToEnd(
      sys: System, a: Identity, b: Identity, toB: Peer, peers: map<Text, Peer>,
      db: Answers, since: i64, n1: Nonce, n2: Nonce)
    requires Lawful(sys) && Knows(sys, toB, b) && toB.routeId.Some? && CallFits(sys, a, b, since, n1)
    requires sys.show(a.dhtKey) in peers && Knows(sys, peers[sys.show(a.dhtKey)], a)
    ensures Ask(sys, a, toB, since, n1) == Ok(CallBytes(sys, a, b, since, n1))
    ensures var reply := Reply(sys, b, peers, db, CallBytes(sys, a, b, since, n1), n2);
      var response := ChangesResponse(db.changes(since).0, db.changes(since).1);
      && (reply.Ok? <==> ReplyFits(sys, a, b, response, n2))
      && (reply.Ok? ==> reply.value.Some? && ReadReply(sys, a, toB, reply.value.value) == Ok(response))
  {
    hide Heard, Reply, ReadReply, SealedReply, EnvelopeFits, ResponseFits, DecodeEnvelope, DecodeResponse, Unseal, Seal;
    hide RequestBytes, ResponseBytes, SegOfEnvelope, Frame, Lawful;
    AskIff(sys, a, toB, since, n1);
    AskedBytes(sys, a, toB, since, n1);
    RequestArrives(sys, a, b, peers, db, ChangesRequest(since), Ask(sys, a, toB, since, n1).value, n1, n2);
    var ca, cb := Crypto(a.secret, sys.publicOf(b.secret)), Crypto(b.secret, sys.publicOf(a.secret));
    var response := ChangesResponse(db.changes(since).0, db.changes(since).1);
    ReplyIsRead(sys, b, cb, ca, Changes(response), n2);
    var reply := Reply(sys, b, peers, db, Ask(sys, a, toB, since, n1).value, n2);
    if reply.Ok? {
      ReadReplyIff(sys, a, toB, reply.value.value, response);
    }
  }

  lemma AskedBytes(sys: System, a: Identity, peer: Peer, since: i64, nonce: Nonce)
    requires Ask(sys, a, peer, since, nonce).Ok?
    ensures peer.status.Some? && sys.parse(peer.status.value.key).Some?
    ensures EnvelopeBytes(RequestEnvelope(sys, a, sys.parse(peer.status.value.key).value, ChangesRequest(since), nonce))
      == Ok(Ask(sys, a, peer, since, nonce).value)
  {
    hide SegOfEnvelope, Frame, EnvelopeFits, Seal, RequestBytes;
  }

  /** The responder can derive the key to talk to this peer. */
  predicate HasKey(sys: System, peer: Peer) {
    peer.status.Some? && sys.parse(peer.status.value.key).Some?
  }

  lemma KeylessIsRefused(
      sys: System, a: Identity, b: Identity, toB: Peer, copied: map<Text, Peer>, since: i64, n1: Nonce)
    requires Ask(sys, a, toB, since, n1).Ok?
    requires sys.show(a.dhtKey) in copied ==> !HasKey(sys, copied[sys.show(a.dhtKey)])
    ensures var heard := Heard(sys, b, copied, Ask(sys, a, toB, since, n1).value);
      if sys.show(a.dhtKey) in copied then heard.Err? else heard == Ok(None)
  {
    hide EnvelopeFits, SegOfEnvelope, Frame, DecodeEnvelope, Unseal, DecodeRequest, RequestBytes, Seal;
    AskIff(sys, a, toB, since, n1);
  }

  /** The server looks senders up in a copy of its peers made when it started, not
      in the peers it keeps refreshing. Exactly when a call is answered: its sender
      is in that copy, with a status whose key parses, and the reply fits. All that
      is asked of the copy is that keys in it, if any, are right. */
  lemma AnsweredIff(
      sys: System, a: Identity, b: Identity, toB: Peer, copied: map<Text, Peer>,
      db: Answers, since: i64, n1: Nonce, n2: Nonce)
    requires Lawful(sys) && Knows(sys, toB, b) && toB.routeId.Some? && CallFits(sys, a, b, since, n1)
    requires var k := sys.show(a.dhtKey);
      k in copied && HasKey(sys, copied[k]) ==> Knows(sys, copied[k], a)
    ensures Ask(sys, a, toB, since, n1) == Ok(CallBytes(sys, a, b, since, n1))
    ensures var k := sys.show(a.dhtKey);
      var reply := Reply(sys, b, copied, db, CallBytes(sys, a, b, since, n1), n2);
      var response := ChangesResponse(db.changes(since).0, db.changes(since).1);
      && (reply.Ok? && reply.value.Some? <==>
            k in copied && HasKey(sys, copied[k]) && ReplyFits(sys, a, b, response, n2))
      && (reply == Ok(None) <==> k !in copied)
  {
    var k := sys.show(a.dhtKey);
    if k in copied && HasKey(sys, copied[k]) {
      hide Knows, Lawful, Reply, Ask, ReplyFits, CallFits, CallBytes;
      EndToEnd(sys, a, b, toB, copied, db, since, n1, n2);
    } else {
      hide Lawful, Ask, ReplyFits, Heard, EnvelopeFits, RequestEnvelope, EnvelopeBytes;
      AskIff(sys, a, toB, since, n1);
      AskedBytes(sys, a, toB, since, n1);
      KeylessIsRefused(sys, a, b, toB, copied, since, n1);
    }
  }
}
