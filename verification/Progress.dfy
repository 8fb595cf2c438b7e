/** Nothing the convergence theorems ask for is out of reach: every run of the
    protocol, however it went, can be continued until the system has settled. */
module Progress {
  import opened Basics
  import opened Replica
  import opened Protocol
  import opened Safety
  import opened Convergence

  /** A start: nodes with databases of different sites. */
  function Start(sites: map<NodeId, SiteId>): State {
    State(map n | n in sites :: Node(FreshDb(sites[n]), map[]), map[], {}, {}, {}, 0, sites.Values)
  }

  /** Any assignment of distinct site ids to nodes is a start. */
  lemma StartIsInit(sites: map<NodeId, SiteId>)
    requires forall m, n :: m in sites && n in sites && sites[m] == sites[n] ==> m == n
    ensures Init(Start(sites)) && Start(sites).nodes.Keys == sites.Keys
    ensures forall n :: n in sites ==> Start(sites).nodes[n] == Node(Db(sites[n], map[], 0, map[]), map[])
    ensures Run([Start(sites)], []).Valid()
  {
  }

  /** `r'` goes on where `r` ends. */
  ghost predicate Continues(r: Run, r': Run) {
    && r.Valid() && r'.Valid() && |r.labels| <= |r'.labels|
    && r'.labels[..|r.labels|] == r.labels && r'.states[..|r.states|] == r.states
  }

  lemma ContinuesLonger(r: Run, r': Run)
    requires Continues(r, r')
    ensures r'.Valid() && |r.labels| <= |r'.labels|
    ensures |r.states| == |r.labels| + 1 && |r'.states| == |r'.labels| + 1
  {
  }

  lemma ContinuesItself(r: Run, t: nat)
    requires Quiet(r, t)
    ensures Continues(r, r) && |r.states| > 0
  {
  }

  lemma ContinuesOn(r: Run, r': Run, r'': Run)
    requires Continues(r, r') && Continues(r', r'')
    ensures Continues(r, r'')
  {
    assert r''.labels[..|r.labels|] == r''.labels[..|r'.labels|][..|r.labels|];
    assert r''.states[..|r.states|] == r''.states[..|r'.states|][..|r.states|];
  }

  /** One more step of a quiet run. */
  lemma Step(r: Run, t: nat, l: Label) returns (r': Run)
    requires Quiet(r, t) && Enabled(r.Final(), l) && !l.LocalTxn? && !l.ReplaceDb?
    ensures Quiet(r', t) && Continues(r, r')
    ensures r'.labels == r.labels + [l] && r'.states == r.states + [Apply(r.Final(), l)]
  {
    r' := Run(r.states + [Apply(r.Final(), l)], r.labels + [l]);
    forall i | 0 <= i < |r'.labels|
      ensures Enabled(r'.states[i], r'.labels[i]) && r'.states[i + 1] == Apply(r'.states[i], r'.labels[i])
    {
      if i < |r.labels| {
        assert r'.labels[i] == r.labels[i];
      }
    }
  }

  lemma AnnouncesKept(r: Run, r': Run, t: nat, t1: nat, t2: nat, b: NodeId)
    requires Continues(r, r') && AnnouncesBetween(r, t, t1, b) && t1 <= t2
    ensures AnnouncesBetween(r', t, t2, b)
  {
    var k :| t <= k < t1 && k < |r.labels| && r.labels[k] == Announce(b);
    assert r'.labels[k] == r'.labels[..|r.labels|][k];
  }

  lemma PullsKept(r: Run, r': Run, from: nat, a: NodeId, b: NodeId)
    requires Continues(r, r') && Pulls(r, from, a, b)
    ensures Pulls(r', from, a, b)
  {
    var i, j :| from <= i < j && PullAt(r, i, j, a, b);
    SameSteps(r, r', i);
    SameSteps(r, r', j);
    if !Skips(DbAt(r, j, a), r.states[j].nodes[a].seen[b]) {
      var q := RequestOf(r.states[j], a, b);
      var d :| j < d && Completes(r, d, q);
      SameSteps(r, r', d);
      assert Completes(r', d, q);
      assert CompletesLater(r', j, q);
    }
    assert PullAt(r', i, j, a, b);
  }

  lemma SameSteps(r: Run, r': Run, i: nat)
    requires Continues(r, r') && i < |r.labels|
    ensures r'.labels[i] == r.labels[i] && r'.states[i] == r.states[i]
  {
    assert r'.labels[i] == r'.labels[..|r.labels|][i];
    assert r'.states[i] == r'.states[..|r.states|][i];
  }

  /** All of `todo` announce, one after the other. */
  lemma {:induction false} AllAnnounce(r: Run, t: nat, todo: set<NodeId>) returns (r': Run)
    requires Quiet(r, t) && todo <= r.Final().nodes.Keys
    ensures Quiet(r', t) && Continues(r, r')
    ensures forall b :: b in todo ==> AnnouncesBetween(r', t, |r'.labels|, b)
    decreases todo
  {
    if todo == {} {
      r' := r;
    } else {
      var b :| b in todo;
      var r1 := Step(r, t, Announce(b));
      assert r1.labels[|r.labels|] == Announce(b);
      r' := AllAnnounce(r1, t, todo - {b});
      ContinuesOn(r, r1, r');
      assert AnnouncesBetween(r1, t, |r1.labels|, b);
      AnnouncesKept(r1, r', t, |r1.labels|, |r'.labels|, b);
    }
  }

  /** A request in the network is answered by the database its peer has. */
  lemma Answer(r: Run, t: nat, q: Request) returns (r': Run, p: Response)
    requires Quiet(r, t) && q in r.Final().requests && q.peer in r.Final().nodes
    ensures Quiet(r', t) && Continues(r, r') && |r'.labels| > |r.labels|
    ensures r'.Final().nodes == r.Final().nodes
    ensures p in r'.Final().responses && p.req == q && p.site == r.Final().nodes[q.peer].db.site
  {
    var s := r.Final();
    var db := s.nodes[q.peer].db;
    r' := Step(r, t, AnswerStatus(q));
    if q.since >= StatusVersion(db.cells) {
      p := Response(q, db.site, []);
    } else {
      var r1 := r';
      var rows := Listed(LocalAbove(db.cells, q.since));
      r' := Step(r1, t, AnswerRows(Scan(q, db.site), rows));
      ContinuesOn(r, r1, r');
      p := Response(q, db.site, rows);
    }
  }

  /** The record of a node that has announced since the system went quiet names the
      database it has. */
  lemma RecordNamesSite(r: Run, t: nat, t': nat, b: NodeId)
    requires Quiet(r, t) && t <= t' <= |r.labels| && AnnouncesBetween(r, t, t', b) && b in r.Final().nodes
    ensures b in r.Final().dht && r.Final().dht[b].site == r.Final().nodes[b].db.site
  {
    var k :| t <= k < t' && k < |r.labels| && r.labels[k] == Announce(b);
    AnnouncedIsRecent(r, t, k, |r.labels|, b);
  }

  /** Node `a` refreshes the status of `b`, which has announced, and begins to pull:
      it skips, or a request about the database of `b` is in the network. */
  lemma AskOnce(r: Run, t: nat, t': nat, a: NodeId, b: NodeId) returns (r': Run)
    requires Quiet(r, t) && t <= t' <= |r.labels| && AnnouncesBetween(r, t, t', b)
    requires a in r.Final().nodes && b in r.Final().nodes && a != b
    ensures Quiet(r', t) && Continues(r, r') && |r'.labels| == |r.labels| + 2
    ensures var i := |r.labels|;
      && r'.labels[i] == Refresh(a, b) && r'.labels[i + 1] == BeginPull(a, b)
      && a in r'.states[i + 1].nodes && b in r'.states[i + 1].nodes[a].seen
      && (Skips(DbAt(r', i + 1, a), r'.states[i + 1].nodes[a].seen[b]) ||
          var q := RequestOf(r'.states[i + 1], a, b);
          && q in r'.Final().requests && PullAlive(r'.Final(), q)
          && b in r'.Final().nodes && q.target == r'.Final().nodes[b].db.site)
  {
    assert r.Valid() && |r.states| == |r.labels| + 1;
    hide Quiet, Run.Valid, Apply, Enabled, AnnouncesBetween;
    var i := |r.labels|;
    RecordNamesSite(r, t, t', b);
    AskSteps(r.Final(), a, b);
    var r1 := Step(r, t, Refresh(a, b));
    r' := Step(r1, t, BeginPull(a, b));
    ContinuesOn(r, r1, r');
    ContinuesLonger(r, r1);
    ContinuesLonger(r1, r');
    assert r'.labels[i] == Refresh(a, b) && r'.labels[i + 1] == BeginPull(a, b);
    assert r'.states[i + 1] == r1.Final();
  }

  lemma AskSteps(s: State, a: NodeId, b: NodeId)
    requires a in s.nodes && b in s.nodes && a != b && b in s.dht && s.dht[b].site == s.nodes[b].db.site
    ensures Enabled(s, Refresh(a, b))
    ensures var s1 := Apply(s, Refresh(a, b));
      && Enabled(s1, BeginPull(a, b)) && a in s1.nodes && b in s1.nodes[a].seen
      && (Skips(s1.nodes[a].db, s1.nodes[a].seen[b]) ||
          var s2, q := Apply(s1, BeginPull(a, b)), RequestOf(s1, a, b);
          && q in s2.requests && PullAlive(s2, q) && b in s2.nodes && q.target == s2.nodes[b].db.site)
  {
  }

  lemma PullOnce(r: Run, t: nat, t': nat, a: NodeId, b: NodeId) returns (r': Run)
    requires Quiet(r, t) && t <= t' <= |r.labels| && AnnouncesBetween(r, t, t', b)
    requires a in r.Final().nodes && b in r.Final().nodes && a != b
    ensures Quiet(r', t) && Continues(r, r') && Pulls(r', t', a, b)
  {
    hide Quiet, Run.Valid, AnnouncesBetween;
    var i := |r.labels|;
    var r1 := AskOnce(r, t, t', a, b);
    ContinuesLonger(r, r1);
    if Skips(DbAt(r1, i + 1, a), r1.states[i + 1].nodes[a].seen[b]) {
      r' := r1;
    } else {
      var q := RequestOf(r1.states[i + 1], a, b);
      var r2, p := Answer(r1, t, q);
      r' := Step(r2, t, Deliver(p));
      ContinuesOn(r1, r2, r');
      ContinuesOn(r, r1, r');
      ContinuesLonger(r2, r');
      SameSteps(r1, r', i);
      SameSteps(r1, r', i + 1);
      assert r'.labels[|r2.labels|] == Deliver(p);
      assert Completes(r', |r2.labels|, q);
      assert CompletesLater(r', i + 1, q);
    }
    assert PullAt(r', i, i + 1, a, b);
  }

  /** A quiet run over these nodes, all of which have announced. */
  ghost predicate Ready(r: Run, t: nat, t': nat, nodes: set<NodeId>) {
    && Quiet(r, t) && t <= t' <= |r.labels| && nodes == r.Final().nodes.Keys
    && forall b :: b in nodes ==> AnnouncesBetween(r, t, t', b)
  }

  lemma PullPair(r: Run, t: nat, t': nat, nodes: set<NodeId>, pair: (NodeId, NodeId)) returns (r': Run)
    requires Ready(r, t, t', nodes) && pair in OrderedPairs(nodes)
    ensures Ready(r', t, t', nodes) && Continues(r, r') && Pulls(r', t', pair.0, pair.1)
  {
    r' := PullOnce(r, t, t', pair.0, pair.1);
    hide Quiet, Pulls, AnnouncesBetween, Continues;
    NodesAreContinued(r, r');
    ContinuesLonger(r, r');
    forall b | b in nodes ensures AnnouncesBetween(r', t, t', b) {
      AnnouncesKept(r, r', t, t', t', b);
    }
  }

  ghost predicate AllPulled(r: Run, from: nat, pairs: set<(NodeId, NodeId)>) {
    r.Valid() && forall pair :: pair in pairs ==> Pulls(r, from, pair.0, pair.1)
  }

  lemma OneMorePulled(r: Run, r': Run, from: nat, pairs: set<(NodeId, NodeId)>, pair: (NodeId, NodeId))
    requires Continues(r, r') && Pulls(r, from, pair.0, pair.1) && AllPulled(r', from, pairs - {pair})
    ensures AllPulled(r', from, pairs)
  {
    PullsKept(r, r', from, pair.0, pair.1);
    hide Continues, Pulls, Run.Valid;
  }

  lemma {:induction false} AllPull(r: Run, t: nat, t': nat, nodes: set<NodeId>, todo: set<(NodeId, NodeId)>)
    returns (r': Run)
    requires Ready(r, t, t', nodes) && todo <= OrderedPairs(nodes)
    ensures Ready(r', t, t', nodes) && Continues(r, r') && AllPulled(r', t', todo)
    decreases todo
  {
    if todo == {} {
      ContinuesItself(r, t);
      r' := r;
    } else {
      hide Ready, Pulls, Continues, OrderedPairs, AllPulled;
      var pair :| pair in todo;
      var r1 := PullPair(r, t, t', nodes, pair);
      r' := AllPull(r1, t, t', nodes, todo - {pair});
      ContinuesOn(r, r1, r');
      OneMorePulled(r1, r', t', todo, pair);
    }
  }

  lemma NodesAreContinued(r: Run, r': Run)
    requires Continues(r, r')
    ensures r'.Final().nodes.Keys == r.Final().nodes.Keys
  {
    NodesAreFixed(r', |r.labels|, |r'.labels|);
    assert r'.states[|r.labels|] == r'.states[..|r.states|][|r.labels|];
  }

  /** Every run can be continued, without any further write or replacement, to one
      that has settled. What `Convergence` promises of settled runs is therefore
      within reach from every reachable state. */
  lemma EveryRunCanSettle(r: Run) returns (r': Run, t': nat)
    requires r.Valid()
    ensures Continues(r, r') && Settled(r', |r.labels|, t')
  {
    var t := |r.labels|;
    var nodes := r.Final().nodes.Keys;
    var r1 := AllAnnounce(r, t, nodes);
    NodesAreContinued(r, r1);
    t' := |r1.labels|;
    r' := AllPull(r1, t, t', nodes, OrderedPairs(nodes));
    hide Quiet, Continues, Pulls, AnnouncesBetween;
    ContinuesOn(r, r1, r');
    PairsSettle(r', t, t', nodes);
  }

  lemma PairsSettle(r: Run, t: nat, t': nat, nodes: set<NodeId>)
    requires Ready(r, t, t', nodes) && AllPulled(r, t', OrderedPairs(nodes))
    ensures Settled(r, t, t')
  {
    hide Pulls, AnnouncesBetween;
    forall a, b | a in nodes && b in nodes && a != b ensures Pulls(r, t', a, b) {
      assert (a, b) in OrderedPairs(nodes);
    }
  }
}
