/** `Sovereign`: the private route a node publishes, and who owns it. */
module Routes {
  import opened Basics
  import opened Messages
  import opened Layout
  import opened RoundTrip
  import opened Wire
  import opened Codec
  import opened Transport

  datatype Route = Route(id: Bytes, data: Bytes)

  /** A sovereign's route, the routes allocated and not released on its behalf,
      and the value under its DHT key. */
  datatype Holdings = Holdings(route: Option<Route>, leased: set<Bytes>, published: Option<Bytes>)

  /** What happens to a sovereign, with the outcomes of its network calls. */
  datatype Event =
    | Announce(siteId: SiteId, version: i64, offer: Option<Route>, setOk: bool)
    | RouteChange(releaseOk: bool)

  /** A route offered by `new_private_route` is new. */
  predicate Possible(h: Holdings, e: Event) {
    e.Announce? && e.offer.Some? ==> e.offer.value.id !in h.leased
  }

  /** The route an announcement goes out with. */
  function RouteFor(h: Holdings, offer: Option<Route>): Option<Route> {
    if h.route.Some? then h.route else offer
  }

  predicate Succeeds(h: Holdings, key: Text, e: Event) {
    match e
    case Announce(siteId, version, offer, setOk) =>
      && RouteFor(h, offer).Some? && setOk
      && NodeStatusFits(NodeStatus(siteId, version, key, RouteFor(h, offer).value.data))
    case RouteChange(releaseOk) => h.route.Some? ==> releaseOk
  }

  function After(h: Holdings, key: Text, e: Event): Holdings {
    match e
    case Announce(siteId, version, offer, _) =>
      var h' :=
        if h.route.None? && offer.Some? then h.(route := offer, leased := h.leased + {offer.value.id}) else h;
      if !Succeeds(h, key, e) then h'
      else h'.(published := Some(StatusBytes(NodeStatus(siteId, version, key, RouteFor(h, offer).value.data))))
    case RouteChange(releaseOk) =>
      if h.route.Some? && releaseOk then h.(route := None, leased := h.leased - {h.route.value.id}) else h
  }

  function StatusBytes(s: NodeStatus): Bytes
    requires NodeStatusFits(s)
  {
    NodeStatusRoundTrip(s);
    Frame(SegOfNodeStatus(s))
  }

  /** An announcement in full. It goes out with the route already held, or else with
      the one offered, which is then held; it succeeds exactly when there is one, the
      status fits and the record can be written; and what it publishes is the status
      with that route. A failed one keeps the route and publishes nothing. */
  lemma AnnounceOutcome(h: Holdings, key: Text, siteId: SiteId, version: i64, offer: Option<Route>, setOk: bool)
    ensures var e := Announce(siteId, version, offer, setOk);
      var now, ok := After(h, key, e), Succeeds(h, key, e);
      && (h.route.Some? ==> now.route == h.route && now.leased == h.leased)
      && (h.route.None? && offer.Some? ==> now.route == offer && now.leased == h.leased + {offer.value.id})
      && (h.route.None? && offer.None? ==> now == h && !ok)
      && (ok <==> setOk && now.route.Some? && NodeStatusFits(NodeStatus(siteId, version, key, now.route.value.data)))
      && (!ok ==> now.published == h.published)
      && (ok ==>
            && now.published.Some?
            && DecodeNodeStatus(now.published.value) == Ok(NodeStatus(siteId, version, key, now.route.value.data)))
  {
    hide SegOfNodeStatus, Frame, DecodeNodeStatus, NodeStatusFits;
    var e := Announce(siteId, version, offer, setOk);
    if Succeeds(h, key, e) {
      NodeStatusRoundTrip(NodeStatus(siteId, version, key, RouteFor(h, offer).value.data));
    }
  }

  /** A route change drops the route and gives it back, unless releasing fails, when
      nothing changes; without a route there is nothing to do. */
  lemma ReleaseOutcome(h: Holdings, key: Text, releaseOk: bool)
    ensures var now := After(h, key, RouteChange(releaseOk));
      && (Succeeds(h, key, RouteChange(releaseOk)) <==> h.route.None? || releaseOk)
      && (h.route.Some? && releaseOk ==>
            now.route == None && now.leased == h.leased - {h.route.value.id} && now.published == h.published)
      && (h.route.None? || !releaseOk ==> now == h)
  {
  }

  function AfterAll(h: Holdings, key: Text, events: seq<Event>): Holdings {
    if events == [] then h
    else After(AfterAll(h, key, events[..|events| - 1]), key, events[|events| - 1])
  }

  predicate PossibleAll(h: Holdings, key: Text, events: seq<Event>) {
    events == [] ||
    (&& PossibleAll(h, key, events[..|events| - 1])
     && Possible(AfterAll(h, key, events[..|events| - 1]), events[|events| - 1]))
  }

  /** A run can go on with any event but an offer of a route that is still out. */
  lemma PossibleOneMore(h: Holdings, key: Text, events: seq<Event>, e: Event)
    ensures PossibleAll(h, key, events + [e]) <==>
      && PossibleAll(h, key, events)
      && (e.Announce? && e.offer.Some? ==> e.offer.value.id !in AfterAll(h, key, events).leased)
    ensures AfterAll(h, key, events + [e]) == After(AfterAll(h, key, events), key, e)
  {
    assert (events + [e])[..|events|] == events;
  }

  /** The routes allocated and unreleased are exactly the content of `route`. */
  predicate Conserved(h: Holdings) {
    h.leased == match h.route case None => {} case Some(r) => {r.id}
  }

  lemma {:induction false} RoutesAreConserved(h: Holdings, key: Text, events: seq<Event>)
    requires Conserved(h) && PossibleAll(h, key, events)
    ensures Conserved(AfterAll(h, key, events)) && |AfterAll(h, key, events).leased| <= 1
  {
    if events == [] {
    } else {
      RoutesAreConserved(h, key, events[..|events| - 1]);
    }
  }

  /** Whenever an announcement succeeds, in any run, what is published decodes to
      the announced status with the one route that is then held. */
  lemma SuccessPublishesHeldRoute(h: Holdings, key: Text, events: seq<Event>, e: Event)
    requires Conserved(h) && PossibleAll(h, key, events) && Possible(AfterAll(h, key, events), e)
    requires e.Announce? && Succeeds(AfterAll(h, key, events), key, e)
    ensures var now := After(AfterAll(h, key, events), key, e);
      && now.route.Some? && now.leased == {now.route.value.id} && now.published.Some?
      && DecodeNodeStatus(now.published.value) == Ok(NodeStatus(e.siteId, e.version, key, now.route.value.data))
  {
    RoutesAreConserved(h, key, events);
    NodeStatusRoundTrip(NodeStatus(e.siteId, e.version, key, RouteFor(AfterAll(h, key, events), e.offer).value.data));
  }

  /** `close` takes the route before it releases it. */
  function AfterClose(h: Holdings, recordOk: bool, releaseOk: bool): Holdings {
    if !recordOk || h.route.None? then h
    else h.(route := None, leased := if releaseOk then h.leased - {h.route.value.id} else h.leased)
  }

  /** When the record is closed, no route is held any more, whether or not it could
      be released. */
  lemma CloseOutcome(h: Holdings, recordOk: bool, releaseOk: bool)
    ensures var now := AfterClose(h, recordOk, releaseOk);
      && (!recordOk ==> now == h)
      && (recordOk ==> now.route == None && now.published == h.published)
      && (recordOk && h.route.Some? ==>
            now.leased == if releaseOk then h.leased - {h.route.value.id} else h.leased)
      && (recordOk && h.route.None? ==> now.leased == h.leased)
  {
  }

  /** So closing leaks a route exactly when the release is reached and fails. */
  lemma CloseLeaksIff(h: Holdings, recordOk: bool, releaseOk: bool)
    requires Conserved(h)
    ensures Conserved(AfterClose(h, recordOk, releaseOk)) <==> !(recordOk && h.route.Some? && !releaseOk)
  {
  }

  /** The skip test reads what the peer computed, and the key it needs to talk to
      the peer is the peer's own. */
  lemma AnnouncementIsUnderstood(
      sys: System, announcer: Identity, reader: Identity,
      siteId: SiteId, version: i64, route: Bytes, name: Text, routeId: Option<Bytes>)
    requires Lawful(sys)
    requires NodeStatusFits(NodeStatus(siteId, version, sys.show(sys.publicOf(announcer.secret)), route))
    ensures var status := NodeStatus(siteId, version, sys.show(sys.publicOf(announcer.secret)), route);
      var peer := Peer(name, announcer.dhtKey, Some(status), routeId);
      && DecodeNodeStatus(StatusBytes(status)) == Ok(status)
      && Knows(sys, peer, announcer)
      && CryptoFor(sys, reader, peer) == Ok(Crypto(reader.secret, sys.publicOf(announcer.secret)))
  {
    NodeStatusRoundTrip(NodeStatus(siteId, version, sys.show(sys.publicOf(announcer.secret)), route));
  }

  /** The network's side: routes it has allocated, and the DHT. */
  class Veilid {
    var leased: set<Bytes>
    var dht: map<Key, Bytes>

    constructor ()
      ensures leased == {} && dht == map[]
    {
      leased, dht := {}, map[];
    }
  }

  class Sovereign {
    const dhtKey: Key
    const authKey: Text
    const api: Veilid
    var route: Option<Route>

    constructor (dhtKey: Key, authKey: Text, api: Veilid)
      ensures this.dhtKey == dhtKey && this.authKey == authKey && this.api == api && route == None
    {
      this.dhtKey, this.authKey, this.api, route := dhtKey, authKey, api, None;
    }

    function State(): Holdings
      reads this, api
    {
      Holdings(route, api.leased, if dhtKey in api.dht then Some(api.dht[dhtKey]) else None)
    }

    method DoAnnounce(siteId: SiteId, version: i64, offer: Option<Route>, setOk: bool) returns (r: Result<(), Error>)
      requires offer.Some? ==> offer.value.id !in api.leased
      modifies this, api
      ensures State() == After(old(State()), authKey, Announce(siteId, version, offer, setOk))
      ensures r.Ok? <==> Succeeds(old(State()), authKey, Announce(siteId, version, offer, setOk))
      ensures forall k :: k != dhtKey && k in old(api.dht) ==> k in api.dht && api.dht[k] == old(api.dht[k])
    {
      if route.None? {
        if offer.None? {
          return Err(Network);
        }
        api.leased := api.leased + {offer.value.id};
        route := offer;
      }
      var bytes :- EncodeNodeStatus(NodeStatus(siteId, version, authKey, route.value.data));
      if !setOk {
        return Err(Network);
      }
      api.dht := api.dht[dhtKey := bytes];
      return Ok(());
    }

    method ReleaseRoute(releaseOk: bool) returns (r: Result<(), Error>)
      modifies this, api
      ensures State() == After(old(State()), authKey, RouteChange(releaseOk))
      ensures r.Ok? <==> Succeeds(old(State()), authKey, RouteChange(releaseOk))
    {
      if route.Some? {
        if !releaseOk {
          return Err(Network);
        }
        api.leased := api.leased - {route.value.id};
        route := None;
      }
      return Ok(());
    }

    method Close(recordOk: bool, releaseOk: bool) returns (r: Result<(), Error>)
      modifies this, api
      ensures State() == AfterClose(old(State()), recordOk, releaseOk)
      ensures r.Ok? <==> recordOk && (old(route).Some? ==> releaseOk)
    {
      if !recordOk {
        return Err(Network);
      }
      if route.Some? {
        var taken := route.value;
        route := None;
        if !releaseOk {
          return Err(Network);
        }
        api.leased := api.leased - {taken.id};
      }
      return Ok(());
    }
  }
}
