/** `DDCP`: push, pull, the puller's round and the responder, over the classes of
    the other modules. Outcomes of network calls are parameters. */
module Ddcp {
  import opened Basics
  import opened Messages
  import opened Replica
  import opened Database
  import opened Rounds
  import opened Layout
  import Codec
  import Protocol
  import RoundTrip
  import Routes
  import Safety
  import Registry
  import Transport
  import Watermarks

  type Peer = Transport.Peer
  type Remotes = Registry.Remotes

  // -------------------------------------------------------- reading statuses

  /** What refreshing a peer meets: no answer, no value under its DHT key, or a
      value, with the route imported from it unless importing fails. */
  datatype Refreshed = Failed | NoValue | Value(data: Bytes, routeId: Option<Bytes>)

  /** One peer's turn when peers are refreshed. */
  datatype Reading = Reading(name: Text, read: Refreshed)

  predicate Refreshes(read: Refreshed) {
    match read
    case Failed => false
    case NoValue => true
    case Value(data, routeId) => DecodeNodeStatus(data).Ok? && routeId.Some?
  }

  /** The status is stored as soon as it is decoded, so even when importing the
      route then fails; a value that does not decode leaves the old one. */
  function PeerAfter(peer: Peer, read: Refreshed): Peer {
    match read
    case Failed => peer
    case NoValue => peer.(status := None)
    case Value(data, routeId) =>
      var status := DecodeNodeStatus(data);
      if status.Err? then peer
      else peer.(status := Some(status.value), routeId := if routeId.Some? then routeId else peer.routeId)
  }

  function AfterReading(peers: Remotes, name: Text, read: Refreshed): Remotes {
    if name in peers then peers[name := PeerAfter(peers[name], read)] else peers
  }

  /** A known peer after a refresh that succeeded and found a status. */
  function FreshPeer(peers: Remotes, reading: Reading): (r: Option<Peer>)
    ensures r.Some? ==> r.value.status.Some?
    ensures r.Some? <==> reading.name in peers && Refreshes(reading.read) && reading.read.Value?
  {
    if reading.name in peers && Refreshes(reading.read) && reading.read.Value? then
      Some(PeerAfter(peers[reading.name], reading.read))
    else None
  }

  predicate AllRefresh(readings: seq<Reading>) {
    forall i :: 0 <= i < |readings| ==> Refreshes(readings[i].read)
  }

  /** Peers are refreshed one after the other, up to the first failure. */
  function AfterReadings(peers: Remotes, readings: seq<Reading>): (after: Remotes)
    ensures after.Keys == peers.Keys
  {
    if readings == [] then peers
    else
      var init, last := readings[..|readings| - 1], readings[|readings| - 1];
      var before := AfterReadings(peers, init);
      if AllRefresh(init) then AfterReading(before, last.name, last.read) else before
  }

  lemma ReadingsOneMore(peers: Remotes, readings: seq<Reading>, i: nat)
    requires i < |readings|
    ensures AfterReadings(peers, readings[..i + 1]) ==
      if AllRefresh(readings[..i]) then
        AfterReading(AfterReadings(peers, readings[..i]), readings[i].name, readings[i].read)
      else AfterReadings(peers, readings[..i])
    ensures AllRefresh(readings[..i + 1]) <==> AllRefresh(readings[..i]) && Refreshes(readings[i].read)
  {
    assert readings[..i + 1][..i] == readings[..i];
    assert readings[..i + 1][i] == readings[i];
    assert forall k :: 0 <= k < i ==> readings[..i + 1][k] == readings[..i][k];
  }

  lemma {:induction false} ReadingsStopAtFailure(peers: Remotes, readings: seq<Reading>, i: nat)
    requires i <= |readings| && !AllRefresh(readings[..i])
    ensures AfterReadings(peers, readings) == AfterReadings(peers, readings[..i])
    ensures !AllRefresh(readings)
    decreases |readings|
  {
    if i == |readings| {
      assert readings[..i] == readings;
    } else {
      var init := readings[..|readings| - 1];
      assert init[..i] == readings[..i];
      ReadingsStopAtFailure(peers, init, i);
      assert forall k :: 0 <= k < |init| ==> init[k] == readings[k];
    }
  }

  /** When all peers refresh, each ends up with what was read of it. */
  lemma {:induction false} ReadingsStore(peers: Remotes, readings: seq<Reading>, k: nat)
    requires AllRefresh(readings) && k < |readings| && readings[k].name in peers
    requires forall i, j :: 0 <= i < j < |readings| ==> readings[i].name != readings[j].name
    ensures var name, read := readings[k].name, readings[k].read;
      var before, after := peers[name], AfterReadings(peers, readings)[name];
      && after == PeerAfter(before, read)
      && after.name == before.name && after.dhtKey == before.dhtKey
      && match read
         case Failed => false
         case NoValue => after.status == None && after.routeId == before.routeId
         case Value(data, routeId) =>
           && DecodeNodeStatus(data).Ok? && after.status == Some(DecodeNodeStatus(data).value)
           && routeId.Some? && after.routeId == routeId
  {
    hide DecodeNodeStatus;
    var init := readings[..|readings| - 1];
    assert AllRefresh(init) by {
      assert forall i :: 0 <= i < |init| ==> init[i] == readings[i];
    }
    if k == |init| {
      assert forall i :: 0 <= i < |init| ==> init[i].name != readings[k].name;
      OthersAreKept(peers, init, readings[k].name);
    } else {
      ReadingsStore(peers, init, k);
      assert readings[k].name != readings[|init|].name;
    }
  }

  lemma {:induction false} OthersAreKept(peers: Remotes, readings: seq<Reading>, name: Text)
    requires name in peers && forall i :: 0 <= i < |readings| ==> readings[i].name != name
    ensures AfterReadings(peers, readings)[name] == peers[name]
  {
    if readings == [] {
    } else {
      OthersAreKept(peers, readings[..|readings| - 1], name);
    }
  }

  /** Refreshing, even when it fails half-way, leaves memory and store in agreement:
      names and DHT keys are not touched. */
  lemma {:induction false} RefreshKeepsAgreement(peers: Remotes, readings: seq<Reading>, table: Registry.Table)
    requires Registry.Agree(peers, table)
    ensures Registry.Agree(AfterReadings(peers, readings), table)
  {
    if readings == [] {
    } else {
      RefreshKeepsAgreement(peers, readings[..|readings| - 1], table);
    }
  }

  // ------------------------------------------ a push is read by the pullers

  /** What a successful push publishes is what a puller goes by: whoever then reads
      the record holds the pusher's site id and the version of its database, which
      is what the protocol's `Announce` and `Refresh` pass on. */
  lemma PushedStatusIsSeen(
      h: Routes.Holdings, key: Text, db: Db, version: i64, offer: Option<Routes.Route>,
      peer: Peer, routeId: Option<Bytes>)
    requires version == StatusVersion(db.cells)
    requires Routes.Succeeds(h, key, Routes.Announce(db.site, version, offer, true))
    ensures var published := Routes.After(h, key, Routes.Announce(db.site, version, offer, true)).published;
      && published.Some?
      && var seen := PeerAfter(peer, Value(published.value, routeId)).status;
      && seen.Some? && StatusIn(seen.value) == Protocol.StatusOf(db) && seen.value.key == key
  {
    RoundTrip.NodeStatusRoundTrip(NodeStatus(db.site, version, key, Routes.RouteFor(h, offer).value.data));
  }

  // ------------------------------------------------------- one call, in full

  /** What one pull meets: whether its watermark can be read, the nonce of its
      request, what the network brings back for the bytes of a request, where the
      merge fails, if it does, and what other tasks do to the database before and
      during the call. */
  datatype Call = Call(
    trackedOk: bool,
    nonce: Transport.Nonce,
    network: Bytes -> Result<Bytes, Error>,
    fault: Fault,
    before: seq<Activity>,
    during: seq<Activity>)

  /** `Conclave::changes`: what comes of asking `peer` for the rows above `since`. */
  function Fetched(sys: Transport.System, me: Transport.Identity, peer: Peer, since: i64, call: Call)
    : Result<ChangesResponse, Error>
  {
    var request :- Transport.Ask(sys, me, peer, since, call.nonce);
    var reply :- call.network(request);
    Transport.ReadReply(sys, me, peer, reply)
  }

  /** Exactly when a call brings changes, and which: the request can go out, the
      network brings something back for it, and that reads as those changes. */
  lemma FetchedIff(
      sys: Transport.System, me: Transport.Identity, peer: Peer, since: i64, call: Call, response: ChangesResponse)
    ensures Fetched(sys, me, peer, since, call) == Ok(response) <==>
      var request := Transport.Ask(sys, me, peer, since, call.nonce);
      && request.Ok? && call.network(request.value).Ok?
      && Transport.ReadReply(sys, me, peer, call.network(request.value).value) == Ok(response)
  {
    hide Transport.Ask, Transport.ReadReply;
  }

  /** A watermark as it is stored; every stored watermark is an `i64`. */
  function AsStored(v: int): (r: i64)
    ensures -0x8000_0000_0000_0000 <= v < 0x8000_0000_0000_0000 ==> r == v
  {
    if -0x8000_0000_0000_0000 <= v < 0x8000_0000_0000_0000 then v else 0
  }

  /** The pull of `status` from `peer` that starts from database `db`. */
  function PullOf(
      sys: Transport.System, me: Transport.Identity, order: Order, db: Db,
      peer: Peer, status: NodeStatus, call: Call): Pull
  {
    var since := AsStored(Tracked(ActAll(order, db, call.before), status.siteId));
    Pull(status, call.trackedOk, Fetched(sys, me, peer, since, call), call.fault, call.before, call.during)
  }

  /** A pull through bytes. The responder's answer, with other tasks at work
      between its two reads, goes through the codec, two envelopes and two seals,
      and reaches a puller whose watermark for that database is sound, as it is in
      every reachable state, and at which other tasks work before and during the
      call. If the reply fits in a message, the puller ends up with the very
      database that a direct copy of everything the responder then holds would
      leave, or, when its merge fails, with what the other tasks left. */
  lemma PullOverTheWire(
      sys: Transport.System, a: Transport.Identity, b: Transport.Identity,
      toB: Peer, copied: Remotes, answers: Transport.Answers, n2: Transport.Nonce,
      order: Order, da: Db, before: Db, between: seq<Activity>, after: Db,
      since: i64, status: NodeStatus, call: Call, full: seq<Row>)
    requires Transport.Lawful(sys) && Transport.Knows(sys, toB, b)
    requires sys.show(a.dhtKey) in copied && Transport.Knows(sys, copied[sys.show(a.dhtKey)], a)
    requires toB.routeId.Some? && Transport.CallFits(sys, a, b, since, call.nonce)
    requires var request := Transport.CallBytes(sys, a, b, since, call.nonce);
      var reply := Transport.Reply(sys, b, copied, answers, request, n2);
      reply.Ok? && reply.value.Some? && call.network(request) == Ok(reply.value.value)
    requires answers.changes(since).0 == after.site
    requires ChangesGive(order, before, between, after, since, answers.changes(since).1)
    requires var start := ActAll(order, da, call.before);
      && WellFormed(start) && WellFormed(after) && Watermarks.Sound(start, after)
      && since == Tracked(start, after.site) && status.siteId == after.site
      && !Protocol.Skips(start, StatusIn(status)) && CanActAll(order, start, call.during)
    requires call.trackedOk && Protocol.IsScan(full, after.cells, 0)
    ensures var now := ActAll(order, ActAll(order, da, call.before), call.during);
      PullEffect(order, da, PullOf(sys, a, order, da, toB, status, call)) ==
        if Strikes(call.fault, answers.changes(since).1) then now else Merge(now, after.site, full)
  {
    FetchedIsAnswer(sys, a, b, toB, copied, answers, n2, since, call);
    AnswerIsFull(order, ActAll(order, da, call.before), call.during, before, between, after,
                 since, answers.changes(since).1, full);
  }

  lemma FetchedIsAnswer(
      sys: Transport.System, a: Transport.Identity, b: Transport.Identity, toB: Peer, copied: Remotes,
      answers: Transport.Answers, n2: Transport.Nonce, since: i64, call: Call)
    requires Transport.Lawful(sys) && Transport.Knows(sys, toB, b)
    requires sys.show(a.dhtKey) in copied && Transport.Knows(sys, copied[sys.show(a.dhtKey)], a)
    requires toB.routeId.Some? && Transport.CallFits(sys, a, b, since, call.nonce)
    requires var request := Transport.CallBytes(sys, a, b, since, call.nonce);
      var reply := Transport.Reply(sys, b, copied, answers, request, n2);
      reply.Ok? && reply.value.Some? && call.network(request) == Ok(reply.value.value)
    ensures Fetched(sys, a, toB, since, call) ==
      Ok(ChangesResponse(answers.changes(since).0, answers.changes(since).1))
  {
    hide Transport.Reply, Transport.Ask, Transport.ReadReply, Transport.Lawful, Transport.Knows;
    hide Transport.CallBytes, Transport.CallFits;
    Transport.EndToEnd(sys, a, b, toB, copied, answers, since, call.nonce, n2);
  }

  lemma AnswerIsFull(
      order: Order, start: Db, during: seq<Activity>, before: Db, between: seq<Activity>, after: Db,
      since: int, changes: seq<Change>, full: seq<Row>)
    requires ChangesGive(order, before, between, after, since, changes)
    requires WellFormed(start) && WellFormed(after) && Watermarks.Sound(start, after)
    requires CanActAll(order, start, during)
    requires since == Tracked(start, after.site) && Protocol.IsScan(full, after.cells, 0)
    ensures var now := ActAll(order, start, during);
      Merge(now, after.site, RowsOf(order, changes)) == Merge(now, after.site, full)
  {
    EarlyReturnAgrees(before.cells, since);
    ActsOnlyImprove(order, start, during);
    Safety.DeltaIsFullCopy(ActAll(order, start, during), after, since, RowsOf(order, changes), full);
  }

  // ------------------------------------------------------------ the class

  /** What a round meets at one peer: its status, and the call that follows if it
      has one. */
  datatype Visit = Visit(reading: Reading, call: Call)

  function ReadingsOf(visits: seq<Visit>): (readings: seq<Reading>)
    ensures |readings| == |visits|
    ensures forall i :: 0 <= i < |visits| ==> readings[i] == visits[i].reading
  {
    seq(|visits|, i requires 0 <= i < |visits| => visits[i].reading)
  }

  predicate AllKnown(peers: Remotes, visits: seq<Visit>) {
    forall i :: 0 <= i < |visits| ==> visits[i].reading.name in peers
  }

  /** The pulls of a round: one for each peer that has a status, asking for what is
      above the watermark that the pulls before it have left. */
  function PullsOf(
      sys: Transport.System, me: Transport.Identity, order: Order, db: Db,
      peers: Remotes, visits: seq<Visit>): seq<Pull>
    requires AllKnown(peers, visits)
  {
    if visits == [] then []
    else
      var pulls := PullsOf(sys, me, order, db, peers, visits[..|visits| - 1]);
      var v := visits[|visits| - 1];
      pulls + PullAt(sys, me, order, RoundEffect(order, db, pulls), peers[v.reading.name], v.call)
  }

  function PullAt(
      sys: Transport.System, me: Transport.Identity, order: Order, db: Db, peer: Peer, call: Call): seq<Pull>
  {
    match peer.status
    case None => []
    case Some(status) => [PullOf(sys, me, order, db, peer, status, call)]
  }

  /** `p` is the pull of this peer, with what `call` meets, and it asks for what is
      above the watermark of `before` as other tasks then leave it. */
  ghost predicate PullsPeer(
      sys: Transport.System, me: Transport.Identity, order: Order, before: Db, peer: Peer, call: Call, p: Pull)
  {
    && peer.status == Some(p.status)
    && p.trackedOk == call.trackedOk && p.fault == call.fault
    && p.before == call.before && p.during == call.during
    && var v := Tracked(ActAll(order, before, call.before), p.status.siteId);
    && (-0x8000_0000_0000_0000 <= v < 0x8000_0000_0000_0000 ==> p.answer == Fetched(sys, me, peer, v, call))
  }

  lemma PullOfPullsPeer(
      sys: Transport.System, me: Transport.Identity, order: Order, before: Db,
      peer: Peer, status: NodeStatus, call: Call)
    requires peer.status == Some(status)
    ensures PullsPeer(sys, me, order, before, peer, call, PullOf(sys, me, order, before, peer, status, call))
  {
    hide Fetched, ActAll;
  }

  /** A round pulls from every visited peer that has a status, in the order of the
      visits, each time from the database that the pulls before it have left. */
  lemma {:induction false} EveryPeerIsPulled(
      sys: Transport.System, me: Transport.Identity, order: Order, db: Db, peers: Remotes, visits: seq<Visit>)
    requires AllKnown(peers, visits)
    requires forall i :: 0 <= i < |visits| ==> peers[visits[i].reading.name].status.Some?
    ensures var pulls := PullsOf(sys, me, order, db, peers, visits);
      && |pulls| == |visits|
      && forall i :: 0 <= i < |visits| ==>
           PullsPeer(sys, me, order, RoundEffect(order, db, pulls[..i]),
             peers[visits[i].reading.name], visits[i].call, pulls[i])
  {
    hide RoundEffect, PullsPeer, PullOf;
    var pulls := PullsOf(sys, me, order, db, peers, visits);
    if visits == [] {
    } else {
      var n := |visits| - 1;
      EveryPeerIsPulled(sys, me, order, db, peers, visits[..n]);
      var init := PullsOf(sys, me, order, db, peers, visits[..n]);
      var peer := peers[visits[n].reading.name];
      PullOfPullsPeer(sys, me, order, RoundEffect(order, db, init), peer, peer.status.value, visits[n].call);
      assert pulls[..n] == init;
      forall i | 0 <= i < |visits|
        ensures PullsPeer(sys, me, order, RoundEffect(order, db, pulls[..i]),
                  peers[visits[i].reading.name], visits[i].call, pulls[i])
      {
        assert i < n ==> pulls[..i] == init[..i] && visits[..n][i] == visits[i] && pulls[i] == init[i];
      }
    }
  }

  /** The visits to peers that have a status. */
  function WithStatus(peers: Remotes, visits: seq<Visit>): (r: seq<Visit>)
    requires AllKnown(peers, visits)
    ensures forall i :: 0 <= i < |r| ==> r[i] in visits
    ensures AllKnown(peers, r) && forall i :: 0 <= i < |r| ==> peers[r[i].reading.name].status.Some?
    ensures forall v :: v in visits && peers[v.reading.name].status.Some? ==> v in r
  {
    if visits == [] then []
    else
      var v := visits[|visits| - 1];
      WithStatus(peers, visits[..|visits| - 1]) + if peers[v.reading.name].status.Some? then [v] else []
  }

  /** A peer without a status is passed over. */
  lemma {:induction false} StatuslessArePassedOver(
      sys: Transport.System, me: Transport.Identity, order: Order, db: Db, peers: Remotes, visits: seq<Visit>)
    requires AllKnown(peers, visits)
    ensures PullsOf(sys, me, order, db, peers, visits) ==
      PullsOf(sys, me, order, db, peers, WithStatus(peers, visits))
  {
    hide RoundEffect, PullOf;
    if visits == [] {
    } else {
      var init, v := visits[..|visits| - 1], visits[|visits| - 1];
      StatuslessArePassedOver(sys, me, order, db, peers, init);
      if peers[v.reading.name].status.Some? {
        assert WithStatus(peers, visits)[..|WithStatus(peers, init)|] == WithStatus(peers, init);
      } else {
        assert WithStatus(peers, visits) == WithStatus(peers, init);
      }
    }
  }

  /** Prefixes of a round that other tasks leave room for. */
  lemma {:induction false} CanRoundPrefix(
      sys: Transport.System, me: Transport.Identity, order: Order, db: Db,
      peers: Remotes, visits: seq<Visit>, i: nat)
    requires i <= |visits| && AllKnown(peers, visits)
    requires CanRound(order, db, PullsOf(sys, me, order, db, peers, visits))
    ensures CanRound(order, db, PullsOf(sys, me, order, db, peers, visits[..i]))
    decreases |visits|
  {
    hide CanRound, RoundEffect, CanPull, PullOf;
    if i == |visits| {
      assert visits[..i] == visits;
    } else {
      var n := |visits| - 1;
      var pulls := PullsOf(sys, me, order, db, peers, visits[..n]);
      var next := PullAt(sys, me, order, RoundEffect(order, db, pulls), peers[visits[n].reading.name], visits[n].call);
      if next == [] {
        assert pulls + next == pulls;
      } else {
        RoundOneMore(order, db, pulls, next[0]);
        assert next == [next[0]];
      }
      CanRoundPrefix(sys, me, order, db, peers, visits[..n], i);
      assert visits[..n][..i] == visits[..i];
    }
  }

  lemma NoPulls(sys: Transport.System, me: Transport.Identity, order: Order, db: Db, peers: Remotes)
    ensures RoundEffect(order, db, PullsOf(sys, me, order, db, peers, [])) == db
  {
  }

  lemma PullsOneMore(
      sys: Transport.System, me: Transport.Identity, order: Order, db: Db,
      peers: Remotes, visits: seq<Visit>, i: nat)
    requires i < |visits| && AllKnown(peers, visits)
    ensures var pulls := PullsOf(sys, me, order, db, peers, visits[..i]);
      PullsOf(sys, me, order, db, peers, visits[..i + 1]) ==
        pulls + PullAt(sys, me, order, RoundEffect(order, db, pulls), peers[visits[i].reading.name], visits[i].call)
  {
    assert visits[..i + 1][..i] == visits[..i];
  }

  class Node {
    const db: DB
    const conclave: Registry.Conclave
    const me: Transport.Identity

    constructor (db: DB, conclave: Registry.Conclave, me: Transport.Identity)
      ensures this.db == db && this.conclave == conclave && this.me == me
    {
      this.db, this.conclave, this.me := db, conclave, me;
    }

    /** `Conclave::changes` */
    method FetchChanges(peer: Peer, since: i64, call: Call) returns (r: Result<ChangesResponse, Error>)
      ensures Transport.SameOutcome(r, Fetched(conclave.sys, me, peer, since, call))
    {
      var request := Transport.PrepareCall(conclave.sys, me, peer, since, call.nonce);
      if request.Err? {
        return Err(request.error);
      }
      var reply := call.network(request.value);
      if reply.Err? {
        return Err(reply.error);
      }
      r := Transport.FinishCall(conclave.sys, me, peer, reply.value);
    }

    /** `pull_from` */
    method PullFrom(peer: Peer, status: NodeStatus, call: Call) returns (r: Result<(bool, i64), Error>)
      requires CanActAll(db.order, db.Model(), call.before)
      requires var start := ActAll(db.order, db.Model(), call.before);
        call.trackedOk && status.dbVersion > Tracked(start, status.siteId) ==> CanActAll(db.order, start, call.during)
      modifies db
      ensures var p := PullOf(conclave.sys, me, db.order, old(db.Model()), peer, status, call);
        && db.Model() == PullEffect(db.order, old(db.Model()), p)
        && PullReturns(db.order, old(db.Model()), p, r)
      ensures var start := ActAll(db.order, old(db.Model()), call.before);
        && (!call.trackedOk ==> r.Err? && db.Model() == start)
        && (call.trackedOk && status.dbVersion <= Tracked(start, status.siteId) ==>
              r.Ok? && !r.value.0 && r.value.1 == Tracked(start, status.siteId) && db.Model() == start)
        && (call.trackedOk && status.dbVersion > Tracked(start, status.siteId) ==>
              exists since: i64 :: since == Tracked(start, status.siteId)
                && PullOutcome(start, peer, status, call, Fetched(conclave.sys, me, peer, since, call), r, db.Model()))
    {
      db.Elapse(call.before);
      var tracked :- db.TrackedPeerVersion(status.siteId, call.trackedOk);
      if status.dbVersion <= tracked {
        return Ok((false, tracked));
      }
      db.Elapse(call.during);
      var answer :- FetchChanges(peer, tracked, call);
      if answer.siteId != status.siteId {
        return Err(Other("mismatched site_id"));
      }
      var version :- db.Merge(answer.siteId, answer.changes, call.fault);
      return Ok((true, version));
    }

    /** What a pull makes of the answer it got: refused when it comes from another
        site, and otherwise merged in one transaction. */
    ghost predicate PullOutcome(
        start: Db, peer: Peer, status: NodeStatus, call: Call,
        answer: Result<ChangesResponse, Error>, r: Result<(bool, i64), Error>, after: Db)
      reads db
    {
      var now := ActAll(db.order, start, call.during);
      if answer.Ok? && answer.value.siteId == status.siteId && !Strikes(call.fault, answer.value.changes) then
        && after == Merge(now, status.siteId, RowsOf(db.order, answer.value.changes))
        && r.Ok? && r.value.0 && r.value.1 == MaxVersion(RowsOf(db.order, answer.value.changes))
      else r.Err? && after == now
    }

    /** `Peer::refresh`: read and decode the record, then import the route. */
    method RefreshPeer(name: Text, read: Refreshed) returns (r: Result<(), Error>)
      requires name in conclave.remotes
      modifies conclave
      ensures r.Ok? <==> Refreshes(read)
      ensures r.Ok? <==> read.NoValue? || (read.Value? && DecodeNodeStatus(read.data).Ok? && read.routeId.Some?)
      ensures conclave.remotes == AfterReading(old(conclave.remotes), name, read)
      ensures conclave.table == old(conclave.table)
      ensures conclave.remotes.Keys == old(conclave.remotes).Keys
      ensures forall other :: other in conclave.remotes && other != name ==>
        conclave.remotes[other] == old(conclave.remotes)[other]
      ensures var before, after := old(conclave.remotes)[name], conclave.remotes[name];
        match read
        case Failed => after == before
        case NoValue => after == before.(status := None)
        case Value(data, routeId) =>
          var status := DecodeNodeStatus(data);
          if status.Err? then after == before
          else if routeId.None? then after == before.(status := Some(status.value))
          else after == before.(status := Some(status.value), routeId := routeId)
    {
      hide DecodeNodeStatus;
      var peer := conclave.remotes[name];
      match read
      case Failed =>
        return Err(Network);
      case NoValue =>
        conclave.remotes := conclave.remotes[name := peer.(status := None)];
        return Ok(());
      case Value(data, routeId) =>
        var status :- DecodeNodeStatus(data);
        peer := peer.(status := Some(status));
        conclave.remotes := conclave.remotes[name := peer];
        if routeId.None? {
          return Err(Network);
        }
        conclave.remotes := conclave.remotes[name := peer.(routeId := routeId)];
        return Ok(());
    }

    /** `Conclave::refresh_peers`, over the hash map in any order. */
    method RefreshPeers(readings: seq<Reading>) returns (r: Result<(), Error>)
      requires forall i :: 0 <= i < |readings| ==> readings[i].name in conclave.remotes
      modifies conclave
      ensures r.Ok? <==> AllRefresh(readings)
      ensures conclave.remotes == AfterReadings(old(conclave.remotes), readings)
      ensures conclave.table == old(conclave.table)
    {
      ghost var peers := conclave.remotes;
      assert readings[..0] == [];
      for i := 0 to |readings|
        invariant AllRefresh(readings[..i]) && conclave.remotes == AfterReadings(peers, readings[..i])
        invariant conclave.table == old(conclave.table)
      {
        ReadingsOneMore(peers, readings, i);
        var refreshed := RefreshPeer(readings[i].name, readings[i].read);
        if refreshed.Err? {
          ReadingsStopAtFailure(peers, readings, i + 1);
          return refreshed;
        }
      }
      assert readings[..|readings|] == readings;
      return Ok(());
    }

    /** `pull`: only from a known peer with a fresh, complete status. */
    method PullByName(v: Visit) returns (r: Result<(bool, i64), Error>)
      requires match FreshPeer(conclave.remotes, v.reading)
        case None => true
        case Some(peer) =>
          && CanActAll(db.order, db.Model(), v.call.before)
          && var start := ActAll(db.order, db.Model(), v.call.before);
          && (v.call.trackedOk && peer.status.value.dbVersion > Tracked(start, peer.status.value.siteId) ==>
                CanActAll(db.order, start, v.call.during))
      modifies conclave, db
      ensures match FreshPeer(old(conclave.remotes), v.reading)
        case None => r.Err? && db.Model() == old(db.Model())
        case Some(peer) =>
          var p := PullOf(conclave.sys, me, db.order, old(db.Model()), peer, peer.status.value, v.call);
          && db.Model() == PullEffect(db.order, old(db.Model()), p)
          && PullReturns(db.order, old(db.Model()), p, r)
      ensures conclave.remotes == AfterReading(old(conclave.remotes), v.reading.name, v.reading.read)
    {
      hide PullEffect, PullReturns, PullOf, DecodeNodeStatus;
      var name := v.reading.name;
      if name !in conclave.remotes {
        return Err(Other("unknown peer"));
      }
      var _ :- RefreshPeer(name, v.reading.read);
      var peer := conclave.remotes[name];
      if peer.status.None? {
        return Err(Other("peer missing status"));
      }
      r := PullFrom(peer, peer.status.value, v.call);
    }

    /** The second half of a round, pulls from one peer after the other; a pull
        that fails is logged and the next one goes ahead. */
    method PullAll(visits: seq<Visit>)
      requires AllKnown(conclave.remotes, visits)
      requires CanRound(db.order, db.Model(),
                 PullsOf(conclave.sys, me, db.order, db.Model(), conclave.remotes, visits))
      modifies db
      ensures db.Model() == RoundEffect(db.order, old(db.Model()),
                PullsOf(conclave.sys, me, db.order, old(db.Model()), conclave.remotes, visits))
    {
      hide RoundEffect, CanRound, CanPull, PullEffect, PullReturns, PullsOf, PullOf;
      ghost var start, sys, order, peers := db.Model(), conclave.sys, db.order, conclave.remotes;
      NoPulls(sys, me, order, start, peers);
      assert visits[..0] == [];
      for i := 0 to |visits|
        invariant db.Model() == RoundEffect(order, start, PullsOf(sys, me, order, start, peers, visits[..i]))
      {
        CanRoundPrefix(sys, me, order, start, peers, visits, i + 1);
        ghost var pulls := PullsOf(sys, me, order, start, peers, visits[..i]);
        PullsOneMore(sys, me, order, start, peers, visits, i);
        var peer := conclave.remotes[visits[i].reading.name];
        if peer.status.Some? {
          RoundOneMore(order, start, pulls,
                       PullOf(sys, me, order, db.Model(), peer, peer.status.value, visits[i].call));
          PullOfPullsPeer(sys, me, order, db.Model(), peer, peer.status.value, visits[i].call);
          var _ := PullFrom(peer, peer.status.value, visits[i].call);
        } else {
          assert pulls + [] == pulls;
        }
      }
      assert visits[..|visits|] == visits;
    }

    /** One round of the puller: refresh every peer, then pull from each that has
        a status; `meanwhile` is what other tasks do during the refreshes. One
        refresh that fails calls off all pulls of the round. */
    method PullRound(visits: seq<Visit>, meanwhile: seq<Activity>) returns (refreshed: bool)
      requires AllKnown(conclave.remotes, visits) && CanActAll(db.order, db.Model(), meanwhile)
      requires AllRefresh(ReadingsOf(visits)) ==>
        var start := ActAll(db.order, db.Model(), meanwhile);
        CanRound(db.order, start,
          PullsOf(conclave.sys, me, db.order, start, AfterReadings(conclave.remotes, ReadingsOf(visits)), visits))
      modifies conclave, db
      ensures refreshed <==> AllRefresh(ReadingsOf(visits))
      ensures conclave.remotes == AfterReadings(old(conclave.remotes), ReadingsOf(visits))
      ensures var start := ActAll(db.order, old(db.Model()), meanwhile);
        db.Model() ==
          if refreshed then
            RoundEffect(db.order, start, PullsOf(conclave.sys, me, db.order, start, conclave.remotes, visits))
          else start
    {
      var r := RefreshPeers(ReadingsOf(visits));
      db.Elapse(meanwhile);
      if r.Err? {
        return false;
      }
      PullAll(visits);
      return true;
    }

    /** `push`: announce the database's status, then refresh the peers. When only
        the latter fails, `push` fails although the announcement went out. */
    method Push(
        sovereign: Routes.Sovereign, statusOk: bool, offer: Option<Routes.Route>, setOk: bool, readings: seq<Reading>)
      returns (r: Result<(SiteId, i64), Error>)
      requires offer.Some? ==> offer.value.id !in sovereign.api.leased
      requires forall i :: 0 <= i < |readings| ==> readings[i].name in conclave.remotes
      modifies conclave, sovereign, sovereign.api
      ensures !statusOk ==>
        r.Err? && sovereign.State() == old(sovereign.State()) && conclave.remotes == old(conclave.remotes)
      ensures statusOk ==> exists version: i64 :: (
        var e := Routes.Announce(db.siteId, version, offer, setOk);
        && version == StatusVersion(db.Model().cells)
        && sovereign.State() == Routes.After(old(sovereign.State()), sovereign.authKey, e)
        && if Routes.Succeeds(old(sovereign.State()), sovereign.authKey, e) then
             && (r.Ok? <==> AllRefresh(readings))
             && (r.Ok? ==> r.value == (db.siteId, version))
             && conclave.remotes == AfterReadings(old(conclave.remotes), readings)
           else r.Err? && conclave.remotes == old(conclave.remotes))
    {
      var status :- db.Status(statusOk);
      var announced := sovereign.DoAnnounce(status.0, status.1, offer, setOk);
      if announced.Err? {
        return Err(announced.error);
      }
      var refreshed := RefreshPeers(readings);
      if refreshed.Err? {
        return Err(refreshed.error);
      }
      return Ok(status);
    }

    /** `handle_update` for an `AppCall`, looking senders up in `copied`. `answers`
        is what the database had to say when it was asked; when one of its reads
        fails, there is no reply. */
    method HandleCall(
        copied: Remotes, message: Bytes, nonce: Transport.Nonce, between: seq<Activity>, fault: ReadFault)
      returns (r: Result<Option<Bytes>, Error>, ghost answers: Transport.Answers)
      requires CanActAll(db.order, db.Model(), between)
      modifies db
      ensures
        var heard := Transport.Heard(conclave.sys, me, copied, message);
        var reply := Transport.Reply(conclave.sys, me, copied, answers, message, nonce);
        if !(heard.Ok? && heard.value.Some?) then
          Transport.SameOutcome(r, reply) && db.Model() == old(db.Model())
        else match heard.value.value.1
          case StatusRequest =>
            && db.Model() == old(db.Model())
            && if fault.StatusFails? then r.Err?
               else
                 && Transport.SameOutcome(r, reply)
                 && answers.status.0 == db.siteId && answers.status.1 == StatusVersion(db.Model().cells)
          case ChangesRequest(since) =>
            if ReadStrikes(fault, old(db.Model()), since) then
              && r.Err?
              && db.Model() ==
                   if fault.StatusFails? then old(db.Model()) else ActAll(db.order, old(db.Model()), between)
            else
              && Transport.SameOutcome(r, reply)
              && answers.changes(since).0 == db.siteId
              && ChangesGive(db.order, old(db.Model()), between, db.Model(), since, answers.changes(since).1)
    {
      answers := Transport.Answers((db.siteId, 0), _ => (db.siteId, []));
      var heard :- Transport.Heard(conclave.sys, me, copied, message);
      if heard.None? {
        return Ok(None), answers;
      }
      var crypto, q := heard.value.0, heard.value.1;
      var response;
      match q {
        case StatusRequest =>
          var status :- db.Status(!fault.StatusFails?);
          response := StatusResponse(status.0, status.1);
          answers := Transport.Answers(status, _ => (db.siteId, []));
        case ChangesRequest(since) =>
          var found :- db.Changes(since, between, fault);
          response := Changes(ChangesResponse(found.0, found.1));
          answers := Transport.Answers((db.siteId, 0), _ => found);
      }
      r := SealReply(crypto, response, nonce);
    }

    /** Encodes, seals and wraps a response. */
    method SealReply(crypto: Transport.Crypto, response: Response, nonce: Transport.Nonce)
      returns (r: Result<Option<Bytes>, Error>)
      ensures Transport.SameOutcome(r, Transport.SealedReply(conclave.sys, me, crypto, response, nonce))
    {
      var bytes :- Codec.EncodeResponse(response);
      var contents := Transport.Encode(conclave.sys, crypto, bytes, nonce);
      var reply :- Codec.EncodeEnvelope(Envelope(conclave.sys.show(me.dhtKey), contents));
      return Ok(Some(reply));
    }
  }
}
