/** The classes take exactly the protocol's steps: every pull of `Ddcp.Node`,
    answered by a `Database.DB`, with other tasks at work on both databases, is a
    run of the protocol. */
module Refinement {
  import opened Basics
  import Messages
  import opened Replica
  import opened Protocol
  import opened Database
  import opened Rounds
  import Convergence

  // ------------------------------------------------------------ many steps

  ghost predicate Path(s: State, labels: seq<Label>, s': State)
    decreases |labels|
  {
    if labels == [] then s' == s
    else Enabled(s, labels[0]) && Path(Apply(s, labels[0]), labels[1..], s')
  }

  /** The protocol can get from `s` to `s'`. */
  ghost predicate Reaches(s: State, s': State) {
    exists labels :: Path(s, labels, s')
  }

  lemma {:induction false} PathAppend(s: State, labels: seq<Label>, s': State, more: seq<Label>, s'': State)
    requires Path(s, labels, s') && Path(s', more, s'')
    ensures Path(s, labels + more, s'')
    decreases |labels|
  {
    if labels == [] {
      assert labels + more == more;
    } else {
      PathAppend(Apply(s, labels[0]), labels[1..], s', more, s'');
      assert (labels + more)[1..] == labels[1..] + more;
    }
  }

  lemma ReachesOn(s: State, s': State, s'': State)
    requires Reaches(s, s') && Reaches(s', s'')
    ensures Reaches(s, s'')
  {
    var labels :| Path(s, labels, s');
    var more :| Path(s', more, s'');
    PathAppend(s, labels, s', more, s'');
  }

  lemma ReachesStep(s: State, s': State, l: Label)
    requires Reaches(s, s') && Enabled(s', l)
    ensures Reaches(s, Apply(s', l))
  {
    assert Path(Apply(s', l), [], Apply(s', l));
    assert [l][1..] == [];
    assert Path(s', [l], Apply(s', l));
    ReachesOn(s, s', Apply(s', l));
  }

  lemma ReachesItself(s: State)
    ensures Reaches(s, s)
  {
    assert Path(s, [], s);
  }

  // ---------------------------------------------------- what can happen

  function WithDb(s: State, n: NodeId, db: Db): State
    requires n in s.nodes
  {
    s.(nodes := s.nodes[n := s.nodes[n].(db := db)])
  }

  /** Any node can commit, with any version above those it has stamped before and
      any ranks that raise those of its cells. */
  lemma CommitIsRun(s: State, n: NodeId, version: int, writes: map<Cell, Rank>)
    requires n in s.nodes && version > s.nodes[n].db.clock
    requires forall c :: c in writes && c in s.nodes[n].db.cells ==> writes[c] > s.nodes[n].db.cells[c].rank
    ensures var db := s.nodes[n].db;
      var cells := map c | c in db.cells.Keys + writes.Keys ::
        if c in writes then Local(writes[c], version) else db.cells[c];
      Reaches(s, WithDb(s, n, Db(db.site, cells, version, db.tracked)))
  {
    ReachesItself(s);
    ReachesStep(s, s, LocalTxn(n, version, writes));
  }

  /** Any node can push, at any time: its record then holds its site and the
      greatest version among its local rows. */
  lemma PushIsRun(s: State, n: NodeId)
    requires n in s.nodes
    ensures Reaches(s, s.(dht := s.dht[n := Status(s.nodes[n].db.site, StatusVersion(s.nodes[n].db.cells))]))
  {
    ReachesItself(s);
    ReachesStep(s, s, Announce(n));
  }

  /** Any node can refresh any other that has announced, and goes by what it read. */
  lemma RefreshIsRun(s: State, a: NodeId, b: NodeId)
    requires a in s.nodes && b in s.nodes && a != b && b in s.dht
    ensures var node := s.nodes[a];
      Reaches(s, s.(nodes := s.nodes[a := Node(node.db, node.seen[b := s.dht[b]])]))
  {
    ReachesItself(s);
    ReachesStep(s, s, Refresh(a, b));
  }

  /** Any database can be replaced by an empty one of a new site. */
  lemma ReplacementIsRun(s: State, n: NodeId, site: SiteId)
    requires n in s.nodes && site !in s.used
    ensures Reaches(s, s.(nodes := s.nodes[n := Node(Db(site, map[], 0, map[]), map[])], used := s.used + {site}))
  {
    ReachesItself(s);
    ReachesStep(s, s, ReplaceDb(n, site));
  }

  // ------------------------------------------------- other tasks are steps

  /** A response to node `n` that carries what activity `act` merges. */
  ghost predicate Delivers(s: State, n: NodeId, order: Order, act: Activity, resp: Response)
    requires n in s.nodes && act.Merged?
  {
    && resp in s.responses && resp.req.puller == n && resp.req.pullerSite == s.nodes[n].db.site
    && resp.site == act.site && resp.req.target == act.site && resp.rows == RowsOf(order, act.changes)
  }

  /** What another task merges at `n` was sent to `n`. */
  ghost predicate WasSent(s: State, n: NodeId, order: Order, act: Activity)
    requires n in s.nodes
  {
    act.Merged? && !Strikes(act.fault, act.changes) ==> exists resp :: Delivers(s, n, order, act, resp)
  }

  lemma ActIsStep(s: State, n: NodeId, order: Order, act: Activity)
    requires n in s.nodes && CanAct(order, s.nodes[n].db, act) && WasSent(s, n, order, act)
    ensures Reaches(s, WithDb(s, n, Act(order, s.nodes[n].db, act)))
  {
    ReachesItself(s);
    match act
    case Committed(version, writes) =>
      ReachesStep(s, s, LocalTxn(n, version, WriteRanks(order, writes)));
    case Merged(site, changes, fault) =>
      if Strikes(fault, changes) {
        assert WithDb(s, n, s.nodes[n].db) == s;
      } else {
        var resp :| Delivers(s, n, order, act, resp);
        ReachesStep(s, s, Deliver(resp));
      }
  }

  lemma {:induction false} ActKeepsSite(order: Order, db: Db, acts: seq<Activity>)
    ensures ActAll(order, db, acts).site == db.site
  {
    if acts == [] {
    } else {
      ActKeepsSite(order, db, acts[..|acts| - 1]);
    }
  }

  /** Whatever other tasks do to a database is a run of the protocol. */
  lemma {:induction false} ActsAreSteps(s: State, n: NodeId, order: Order, acts: seq<Activity>)
    requires n in s.nodes && CanActAll(order, s.nodes[n].db, acts)
    requires forall i :: 0 <= i < |acts| ==> WasSent(s, n, order, acts[i])
    ensures Reaches(s, WithDb(s, n, ActAll(order, s.nodes[n].db, acts)))
  {
    if acts == [] {
      ReachesItself(s);
      assert WithDb(s, n, s.nodes[n].db) == s;
    } else {
      var init, last := acts[..|acts| - 1], acts[|acts| - 1];
      var s' := WithDb(s, n, ActAll(order, s.nodes[n].db, init));
      forall i | 0 <= i < |init| ensures WasSent(s, n, order, init[i]) {
        assert init[i] == acts[i];
      }
      ActsAreSteps(s, n, order, init);
      ActKeepsSite(order, s.nodes[n].db, init);
      StillSent(s, s', n, order, last);
      ActIsStep(s', n, order, last);
      assert WithDb(s', n, Act(order, s'.nodes[n].db, last)) == WithDb(s, n, ActAll(order, s.nodes[n].db, acts));
      ReachesOn(s, s', WithDb(s', n, Act(order, s'.nodes[n].db, last)));
    }
  }

  lemma StillSent(s: State, s': State, n: NodeId, order: Order, act: Activity)
    requires n in s.nodes && n in s'.nodes && s.nodes[n].db.site == s'.nodes[n].db.site
    requires s.responses <= s'.responses && WasSent(s, n, order, act)
    ensures WasSent(s', n, order, act)
  {
    if act.Merged? && !Strikes(act.fault, act.changes) {
      var resp :| Delivers(s, n, order, act, resp);
      assert Delivers(s', n, order, act, resp);
    }
  }

  lemma SendersKnown(s: State, s': State, n: NodeId, order: Order, acts: seq<Activity>)
    requires n in s.nodes && n in s'.nodes && s.nodes[n].db.site == s'.nodes[n].db.site
    requires s.responses <= s'.responses && forall i :: 0 <= i < |acts| ==> WasSent(s, n, order, acts[i])
    ensures forall i :: 0 <= i < |acts| ==> WasSent(s', n, order, acts[i])
  {
    forall i | 0 <= i < |acts| ensures WasSent(s', n, order, acts[i]) {
      StillSent(s, s', n, order, acts[i]);
    }
  }

  /** One more thing that other tasks do. */
  lemma ActsOneMore(order: Order, db: Db, acts: seq<Activity>, act: Activity)
    ensures CanActAll(order, db, acts + [act]) <==>
      CanActAll(order, db, acts) && CanAct(order, ActAll(order, db, acts), act)
    ensures ActAll(order, db, acts + [act]) == Act(order, ActAll(order, db, acts), act)
  {
    assert (acts + [act])[..|acts|] == acts;
  }

  /** The converse: what the protocol can do to a database, other tasks can. A local
      transaction is one they may commit, with its rows... */
  lemma CommitIsActivity(s: State, n: NodeId, order: Order, version: i64, writes: map<Cell, Write>)
    requires Enabled(s, LocalTxn(n, version, WriteRanks(order, writes)))
    ensures CanAct(order, s.nodes[n].db, Committed(version, writes))
    ensures Act(order, s.nodes[n].db, Committed(version, writes)) ==
      Apply(s, LocalTxn(n, version, WriteRanks(order, writes))).nodes[n].db
    ensures WasSent(s, n, order, Committed(version, writes))
  {
  }

  /** ...and a delivery that is not refused is one they may merge. */
  lemma DeliveryIsActivity(s: State, resp: Response, order: Order, changes: seq<Messages.Change>)
    requires Enabled(s, Deliver(resp)) && resp.site == resp.req.target && resp.rows == RowsOf(order, changes)
    ensures var n, act := resp.req.puller, Merged(resp.site, changes, NoFault);
      && CanAct(order, s.nodes[n].db, act) && WasSent(s, n, order, act)
      && Act(order, s.nodes[n].db, act) == Apply(s, Deliver(resp)).nodes[n].db
  {
    assert Delivers(s, resp.req.puller, order, Merged(resp.site, changes, NoFault), resp);
  }

  // -------------------------------------------------------- the single steps

  /** What `changes` lists after its second read is a row list the protocol may
      send from the database it was read from. */
  lemma ScanIsProtocolAnswer(s: State, scan: Scan, order: Order, clocks: Clocks, changes: seq<Messages.Change>)
    requires scan in s.scans && scan.req.peer in s.nodes && s.nodes[scan.req.peer].db.site == scan.site
    requires s.nodes[scan.req.peer].db.cells == CellsOf(order, clocks) && ScanOf(changes, clocks, scan.req.since)
    ensures Enabled(s, AnswerRows(scan, RowsOf(order, changes)))
  {
    ScanRefines(order, changes, clocks, scan.req.since);
  }

  /** `resp` is what the protocol calls the answer that pull `p` got. */
  predicate Brings(order: Order, resp: Response, p: Pull) {
    && p.trackedOk && p.answer.Ok? && resp.site == p.answer.value.siteId
    && resp.rows == RowsIn(order, p) && resp.req.target == p.status.siteId
  }

  /** What a pull does with its answer is the protocol's delivery: at whatever
      moment the answer comes, and whether it is refused or merged. A merge that
      fails leaves the database as if the answer had not come. */
  lemma PullIsProtocolStep(s: State, resp: Response, order: Order, p: Pull)
    requires Enabled(s, Deliver(resp)) && Brings(order, resp, p)
    ensures var now := s.nodes[resp.req.puller].db;
      (if Commits(p) then Merge(now, p.status.siteId, RowsIn(order, p)) else now) ==
      if Strikes(p.fault, p.answer.value.changes) then now
      else Apply(s, Deliver(resp)).nodes[resp.req.puller].db
  {
  }

  // --------------------------------------------------------- the whole pull

  /** The responder: from its status query to its answer, with other tasks at
      work between its two reads, as `Database.DB.Changes` leaves it. */
  lemma AnswerIsRun(
      s: State, req: Request, order: Order, between: seq<Activity>, after: Db, changes: seq<Messages.Change>)
    returns (s': State)
    requires req in s.requests && req.peer in s.nodes
    requires CanActAll(order, s.nodes[req.peer].db, between)
    requires forall i :: 0 <= i < |between| ==> WasSent(s, req.peer, order, between[i])
    requires ChangesGive(order, s.nodes[req.peer].db, between, after, req.since, changes)
    ensures Reaches(s, s')
    ensures s'.nodes == WithDb(s, req.peer, after).nodes
    ensures s.responses <= s'.responses
    ensures Response(req, s.nodes[req.peer].db.site, RowsOf(order, changes)) in s'.responses
  {
    var db := s.nodes[req.peer].db;
    var s1 := Apply(s, AnswerStatus(req));
    ReachesItself(s);
    ReachesStep(s, s, AnswerStatus(req));
    if req.since >= StatusVersion(db.cells) {
      s' := s1;
      assert RowsOf(order, changes) == [];
      assert WithDb(s, req.peer, db) == s;
    } else {
      forall i | 0 <= i < |between| ensures WasSent(s1, req.peer, order, between[i]) {
        StillSent(s, s1, req.peer, order, between[i]);
      }
      ActsAreSteps(s1, req.peer, order, between);
      ActKeepsSite(order, db, between);
      var s2 := WithDb(s1, req.peer, after);
      var scan := Scan(req, db.site);
      ReachesOn(s, s1, s2);
      s' := Apply(s2, AnswerRows(scan, RowsOf(order, changes)));
      ReachesStep(s, s2, AnswerRows(scan, RowsOf(order, changes)));
    }
  }

  /** The puller, from the arrival of its answer on. */
  lemma DeliveryIsRun(s: State, resp: Response, order: Order, p: Pull)
    returns (s': State)
    requires resp in s.responses && PullAlive(s, resp.req) && Brings(order, resp, p)
    requires CanActAll(order, s.nodes[resp.req.puller].db, p.during)
    requires forall i :: 0 <= i < |p.during| ==> WasSent(s, resp.req.puller, order, p.during[i])
    ensures Reaches(s, s')
    ensures var now := ActAll(order, s.nodes[resp.req.puller].db, p.during);
      s' == WithDb(s, resp.req.puller, if Commits(p) then Merge(now, p.status.siteId, RowsIn(order, p)) else now)
  {
    var a := resp.req.puller;
    ActsAreSteps(s, a, order, p.during);
    ActKeepsSite(order, s.nodes[a].db, p.during);
    var s1 := WithDb(s, a, ActAll(order, s.nodes[a].db, p.during));
    if Strikes(p.fault, p.answer.value.changes) {
      s' := s1;
    } else {
      PullIsProtocolStep(s1, resp, order, p);
      s' := Apply(s1, Deliver(resp));
      ReachesStep(s, s1, Deliver(resp));
    }
  }

  /** The puller's first half: it skips and nothing happens, or it asks its peer
      for what is above the watermark that `PullFrom` reads. */
  lemma PullAsks(s: State, a: NodeId, b: NodeId, status: Messages.NodeStatus) returns (s': State)
    requires Enabled(s, BeginPull(a, b)) && s.nodes[a].seen[b] == StatusIn(status)
    ensures Reaches(s, s') && s'.nodes == s.nodes && s'.responses == s.responses
    ensures var req := RequestOf(s, a, b);
      if Skips(s.nodes[a].db, StatusIn(status)) then s' == s
      else
        && s'.requests == s.requests + {req} && PullAlive(s', req)
        && req.since == Tracked(s.nodes[a].db, status.siteId) && req.target == status.siteId
        && req.puller == a && req.peer == b
  {
    s' := Apply(s, BeginPull(a, b));
    ReachesItself(s);
    ReachesStep(s, s, BeginPull(a, b));
  }

  /** The part of a pull from its request on. */
  lemma AskedPullIsRun(
      s: State, a: NodeId, b: NodeId, order: Order, p: Pull, between: seq<Activity>, after: Db)
    returns (s': State)
    requires a in s.nodes && b in s.nodes && a != b
    requires b in s.nodes[a].seen && s.nodes[a].seen[b] == StatusIn(p.status)
    requires !Skips(s.nodes[a].db, StatusIn(p.status)) && CanActAll(order, s.nodes[a].db, p.during)
    requires CanActAll(order, s.nodes[b].db, between)
    requires forall i :: 0 <= i < |p.during| ==> WasSent(s, a, order, p.during[i])
    requires forall i :: 0 <= i < |between| ==> WasSent(s, b, order, between[i])
    requires p.trackedOk && p.answer.Ok? && p.answer.value.siteId == s.nodes[b].db.site
    requires ChangesGive(order, s.nodes[b].db, between, after,
               Tracked(s.nodes[a].db, p.status.siteId), p.answer.value.changes)
    ensures Reaches(s, s')
    ensures var now := ActAll(order, s.nodes[a].db, p.during);
      s'.nodes == s.nodes
        [a := s.nodes[a].(db := if Commits(p) then Merge(now, p.status.siteId, RowsIn(order, p)) else now)]
        [b := s.nodes[b].(db := after)]
  {
    hide Reaches, ActAll, CanActAll, ChangesGive, Merge, Commits, StatusVersion;
    var req := RequestOf(s, a, b);
    var s1 := PullAsks(s, a, b, p.status);
    SendersKnown(s, s1, b, order, between);
    var s2 := AnswerIsRun(s1, req, order, between, after, p.answer.value.changes);
    ReachesOn(s, s1, s2);
    SendersKnown(s, s2, a, order, p.during);
    s' := DeliveryIsRun(s2, Protocol.Response(req, s.nodes[b].db.site, RowsIn(order, p)), order, p);
    ReachesOn(s, s2, s');
  }

  /** Refinement. Take a pull of node `a` from node `b`, whose database answers
      with what `DB.Changes` gives, while other tasks commit and merge at both
      ends. The protocol can take the same steps: it reaches a state in which the
      puller's database is what `PullFrom` leaves, the responder's is what
      `Changes` leaves, and every other node is as it was. */
  lemma PullIsProtocolRun(
      s: State, a: NodeId, b: NodeId, order: Order, p: Pull, between: seq<Activity>, after: Db)
    returns (s': State)
    requires a in s.nodes && b in s.nodes && a != b
    requires b in s.nodes[a].seen && s.nodes[a].seen[b] == StatusIn(p.status)
    requires CanPull(order, s.nodes[a].db, p) && CanActAll(order, s.nodes[b].db, between)
    requires forall i :: 0 <= i < |p.before| ==> WasSent(s, a, order, p.before[i])
    requires forall i :: 0 <= i < |p.during| ==> WasSent(s, a, order, p.during[i])
    requires forall i :: 0 <= i < |between| ==> WasSent(s, b, order, between[i])
    requires p.answer.Ok? ==>
      && p.answer.value.siteId == s.nodes[b].db.site
      && ChangesGive(order, s.nodes[b].db, between, after,
           Tracked(ActAll(order, s.nodes[a].db, p.before), p.status.siteId), p.answer.value.changes)
    ensures Reaches(s, s')
    ensures var asks := !EndsEarly(ActAll(order, s.nodes[a].db, p.before), p);
      s'.nodes == s.nodes
        [a := s.nodes[a].(db := PullEffect(order, s.nodes[a].db, p))]
        [b := s.nodes[b].(db := if asks && p.answer.Ok? then after else s.nodes[b].db)]
  {
    hide Reaches, ActAll, CanActAll, ChangesGive, Merge, WasSent;
    var s1 := WithDb(s, a, ActAll(order, s.nodes[a].db, p.before));
    ActsAreSteps(s, a, order, p.before);
    ActKeepsSite(order, s.nodes[a].db, p.before);
    if EndsEarly(s1.nodes[a].db, p) {
      s' := s1;
    } else if p.answer.Err? {
      SendersKnown(s, s1, a, order, p.during);
      ActsAreSteps(s1, a, order, p.during);
      s' := WithDb(s1, a, ActAll(order, s1.nodes[a].db, p.during));
      ReachesOn(s, s1, s');
    } else {
      SendersKnown(s, s1, a, order, p.during);
      SendersKnown(s, s1, b, order, between);
      s' := AskedPullIsRun(s1, a, b, order, p, between, after);
      ReachesOn(s, s1, s');
    }
  }

  // ----------------------------------------- convergence of what users see

  /** Once the system has settled, if conflict resolution tells all payloads apart,
      any two nodes list the same cells in their tables and show the same value,
      column version and causal length in each. */
  lemma TablesConverge(
      r: Run, t: nat, t': nat, order: Order, a: NodeId, b: NodeId, clocksA: Clocks, clocksB: Clocks)
    requires Convergence.Settled(r, t, t') && NoReplace(r)
    requires a in r.Final().nodes && r.Final().nodes[a].db.cells == CellsOf(order, clocksA)
    requires b in r.Final().nodes && r.Final().nodes[b].db.cells == CellsOf(order, clocksB)
    requires forall p, q :: order(p) == order(q) ==> p == q
    ensures clocksA.Keys == clocksB.Keys
    ensures forall c :: c in clocksA ==>
      && clocksA[c].val == clocksB[c].val
      && clocksA[c].colVersion == clocksB[c].colVersion && clocksA[c].cl == clocksB[c].cl
  {
    hide Convergence.Settled, CellsOf;
    Convergence.Convergence(r, t, t');
    SameCellsSameTables(order, clocksA, clocksB);
  }

  lemma SameCellsSameTables(order: Order, clocksA: Clocks, clocksB: Clocks)
    requires var cellsA, cellsB := CellsOf(order, clocksA), CellsOf(order, clocksB);
      && (forall c :: c in cellsA ==> c in cellsB && cellsB[c].rank == cellsA[c].rank)
      && (forall c :: c in cellsB ==> c in cellsA)
    requires forall p, q :: order(p) == order(q) ==> p == q
    ensures clocksA.Keys == clocksB.Keys
    ensures forall c :: c in clocksA ==>
      && clocksA[c].val == clocksB[c].val
      && clocksA[c].colVersion == clocksB[c].colVersion && clocksA[c].cl == clocksB[c].cl
  {
    var cellsA, cellsB := CellsOf(order, clocksA), CellsOf(order, clocksB);
    assert clocksA.Keys == cellsA.Keys && clocksB.Keys == cellsB.Keys;
    forall c | c in clocksA
      ensures c in clocksB && clocksA[c].val == clocksB[c].val
      ensures c in clocksB && clocksA[c].colVersion == clocksB[c].colVersion && clocksA[c].cl == clocksB[c].cl
    {
      assert c in cellsA;
      SameRankSameValue(order, clocksA[c], clocksB[c]);
    }
  }
}
