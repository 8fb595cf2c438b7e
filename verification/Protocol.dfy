/** The pull replication protocol as a state machine.

    A node is a DHT record (`NodeId`) and the database behind it. Requests and
    responses stay in the network for ever, so a response may be delivered late,
    out of order, several times or never; a merge that fails and a call that is
    lost leave no trace and need no step of their own. */
module Protocol {
  import opened Basics
  import opened Replica

  /** The DHT key of a node. */
  type NodeId = nat

  /** What a node announces under its DHT key. */
  datatype Status = Status(site: SiteId, version: int)

  /** A node: its database, and per remote the last status it has read. */
  datatype Node = Node(db: Db, seen: map<NodeId, Status>)

  /** `app_call` with `Request::Changes`. `pullerSite` tells which database was
      behind the puller; `target` is the announced site the pull is about. */
  datatype Request = Request(id: nat, puller: NodeId, pullerSite: SiteId, peer: NodeId, target: SiteId, since: int)

  /** A responder between its two database calls: status read, rows not yet. */
  datatype Scan = Scan(req: Request, site: SiteId)

  datatype Response = Response(req: Request, site: SiteId, rows: seq<Row>)

  datatype State = State(
    nodes: map<NodeId, Node>,
    dht: map<NodeId, Status>,
    requests: set<Request>,
    scans: set<Scan>,
    responses: set<Response>,
    nextId: nat,
    used: set<SiteId>)

  datatype Label =
    | LocalTxn(node: NodeId, version: int, writes: map<Cell, Rank>)
    | Announce(node: NodeId)
    | Refresh(node: NodeId, peer: NodeId)
    | BeginPull(node: NodeId, peer: NodeId)
    | AnswerStatus(req: Request)
    | AnswerRows(scan: Scan, rows: seq<Row>)
    | Deliver(resp: Response)
    | ReplaceDb(node: NodeId, site: SiteId)

  /** Every database is empty, and no two share a site id. */
  ghost predicate Init(s: State) {
    && (forall n :: n in s.nodes ==>
          s.nodes[n] == Node(FreshDb(s.nodes[n].db.site), map[]) && s.nodes[n].db.site in s.used)
    && (forall m, n :: m in s.nodes && n in s.nodes && s.nodes[m].db.site == s.nodes[n].db.site ==> m == n)
    && s.dht == map[] && s.requests == {} && s.scans == {} && s.responses == {}
  }

  /** `status()`: the site id and the greatest local version. */
  ghost function StatusOf(db: Db): Status {
    Status(db.site, StatusVersion(db.cells))
  }

  /** The skip test of `pull_from`. */
  predicate Skips(db: Db, status: Status) {
    status.version <= Tracked(db, status.site)
  }

  /** The request a pull that does not skip sends. */
  function RequestOf(s: State, a: NodeId, b: NodeId): Request
    requires a in s.nodes && b in s.nodes[a].seen
  {
    var status := s.nodes[a].seen[b];
    Request(s.nextId, a, s.nodes[a].db.site, b, status.site, Tracked(s.nodes[a].db, status.site))
  }

  /** `rows` lists, in some order, what the scan query selects. */
  ghost predicate IsScan(rows: seq<Row>, cells: Cells, since: int) {
    forall row :: row in rows <==> row in LocalAbove(cells, since)
  }

  /** The puller that sent `req` still runs on the same database. */
  predicate PullAlive(s: State, req: Request) {
    req.puller in s.nodes && s.nodes[req.puller].db.site == req.pullerSite
  }

  ghost predicate Enabled(s: State, l: Label) {
    match l
    case LocalTxn(n, version, writes) => n in s.nodes && CanCommit(s.nodes[n].db, version, writes)
    case Announce(n) => n in s.nodes
    case Refresh(a, b) => a in s.nodes && b in s.nodes && a != b && b in s.dht
    case BeginPull(a, b) => a in s.nodes && b in s.nodes && a != b && b in s.nodes[a].seen
    case AnswerStatus(req) => req in s.requests && req.peer in s.nodes
    case AnswerRows(scan, rows) =>
      && scan in s.scans && scan.req.peer in s.nodes
      && s.nodes[scan.req.peer].db.site == scan.site
      && IsScan(rows, s.nodes[scan.req.peer].db.cells, scan.req.since)
    case Deliver(resp) => resp in s.responses && PullAlive(s, resp.req)
    case ReplaceDb(n, site) => n in s.nodes && site !in s.used
  }

  ghost function Apply(s: State, l: Label): State
    requires Enabled(s, l)
  {
    match l
    case LocalTxn(n, version, writes) =>
      s.(nodes := s.nodes[n := s.nodes[n].(db := Commit(s.nodes[n].db, version, writes))])
    case Announce(n) =>
      s.(dht := s.dht[n := StatusOf(s.nodes[n].db)])
    case Refresh(a, b) =>
      s.(nodes := s.nodes[a := s.nodes[a].(seen := s.nodes[a].seen[b := s.dht[b]])])
    case BeginPull(a, b) =>
      if Skips(s.nodes[a].db, s.nodes[a].seen[b]) then s
      else s.(requests := s.requests + {RequestOf(s, a, b)}, nextId := s.nextId + 1)
    case AnswerStatus(req) =>
      var status := StatusOf(s.nodes[req.peer].db);
      if req.since >= status.version then s.(responses := s.responses + {Response(req, status.site, [])})
      else s.(scans := s.scans + {Scan(req, status.site)})
    case AnswerRows(scan, rows) =>
      s.(responses := s.responses + {Response(scan.req, scan.site, rows)})
    case Deliver(resp) =>
      if resp.site != resp.req.target then s
      else
        var n := resp.req.puller;
        s.(nodes := s.nodes[n := s.nodes[n].(db := Merge(s.nodes[n].db, resp.site, resp.rows))])
    case ReplaceDb(n, site) =>
      s.(nodes := s.nodes[n := Node(FreshDb(site), map[])], used := s.used + {site})
  }

  // ------------------------------------------------------------------- runs

  datatype Run = Run(states: seq<State>, labels: seq<Label>) {
    ghost predicate Valid() {
      && |states| == |labels| + 1
      && Init(states[0])
      && forall i {:trigger labels[i]} :: 0 <= i < |labels| ==>
           Enabled(states[i], labels[i]) && states[i + 1] == Apply(states[i], labels[i])
    }

    function Final(): State
      requires |states| > 0
    {
      states[|states| - 1]
    }
  }

  ghost predicate NoReplace(r: Run) {
    forall i :: 0 <= i < |r.labels| ==> !r.labels[i].ReplaceDb?
  }

  ghost predicate NoReplaceFrom(r: Run, t: nat) {
    forall i :: t <= i < |r.labels| ==> !r.labels[i].ReplaceDb?
  }

  /** No local write happens at or after step `t`. */
  ghost predicate QuietFrom(r: Run, t: nat) {
    forall i :: t <= i < |r.labels| ==> !r.labels[i].LocalTxn?
  }
}
