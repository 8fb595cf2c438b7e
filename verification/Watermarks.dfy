/** Safety of the watermarks in every reachable state, replacement included. */
module Watermarks {
  import opened Basics
  import opened Replica
  import opened Protocol

  // -------------------------------------------------------------- invariant

  /** Sites in use are registered, and no two nodes share one. */
  ghost predicate SitesOk(s: State) {
    && (forall n :: n in s.nodes ==> s.nodes[n].db.site in s.used)
    && (forall m, n :: m in s.nodes && n in s.nodes && s.nodes[m].db.site == s.nodes[n].db.site ==> m == n)
  }

  /** Nothing in the system mentions a site that no database has had. */
  ghost predicate MentionsOk(s: State) {
    && (forall n :: n in s.dht ==> s.dht[n].site in s.used)
    && (forall n, b :: n in s.nodes && b in s.nodes[n].seen ==> s.nodes[n].seen[b].site in s.used)
    && (forall n, site :: n in s.nodes && site in s.nodes[n].db.tracked ==> site in s.used)
    && (forall q :: q in s.requests ==> q.pullerSite in s.used && q.target in s.used && q.id < s.nextId)
    && (forall k :: k in s.scans ==> k.req in s.requests && k.site in s.used)
    && (forall p :: p in s.responses ==> p.req in s.requests && p.site in s.used)
  }

  ghost predicate DbsOk(s: State) {
    forall n :: n in s.nodes ==> WellFormed(s.nodes[n].db)
  }

  /** What database `a` holds dominates every row that `b` still holds as local
      with a version up to `v`. */
  ghost predicate Covered(a: Db, b: Db, v: int) {
    forall c :: HoldsLocal(b.cells, c) && b.cells[c].version <= v ==> Dominates(a.cells, c, b.cells[c].rank)
  }

  /** Watermark soundness. */
  ghost predicate WatermarksOk(s: State) {
    forall a, b :: a in s.nodes && b in s.nodes ==> Sound(s.nodes[a].db, s.nodes[b].db)
  }

  /** The watermark `a` keeps for `b` is a version `b` has stamped, and all that
      `b` still holds as local up to it is dominated by `a`. */
  ghost predicate Sound(a: Db, b: Db) {
    Tracked(a, b.site) <= b.clock && Covered(a, b, Tracked(a, b.site))
  }

  /** A pull never asks to skip more than its watermark has covered. */
  ghost predicate RequestsOk(s: State) {
    forall q :: q in s.requests && PullAlive(s, q) ==> q.since <= Tracked(s.nodes[q.puller].db, q.target)
  }

  /** A response carries every row above `since` that its origin still holds as
      local, up to the greatest version it carries. */
  ghost predicate Complete(p: Response, db: Db) {
    && MaxVersion(p.rows) <= db.clock
    && forall c :: HoldsLocal(db.cells, c) && p.req.since < db.cells[c].version <= MaxVersion(p.rows)
         ==> Row(c, db.cells[c].rank, db.cells[c].version) in p.rows
  }

  ghost predicate ResponsesOk(s: State) {
    forall p, n :: p in s.responses && n in s.nodes && s.nodes[n].db.site == p.site ==> Complete(p, s.nodes[n].db)
  }

  ghost predicate Inv(s: State) {
    && SitesOk(s) && MentionsOk(s) && DbsOk(s)
    && WatermarksOk(s) && RequestsOk(s) && ResponsesOk(s)
  }

  lemma InitInv(s: State)
    requires Init(s)
    ensures Inv(s)
  {
  }

  // ----------------------------------------------------------- single steps

  /** `b` moves by commits or merges of its own: what is local with an old
      version afterwards was local with the same row before. */
  ghost predicate OnlyNewer(before: Db, after: Db) {
    && before.site == after.site && before.clock <= after.clock
    && forall c :: HoldsLocal(after.cells, c) ==>
         || after.cells[c].version > before.clock
         || (c in before.cells && before.cells[c] == after.cells[c])
  }

  /** A database's copies only get better. */
  ghost predicate OnlyBetter(before: Db, after: Db) {
    forall c :: c in before.cells ==> Dominates(after.cells, c, before.cells[c].rank)
  }

  lemma CommitMoves(db: Db, version: int, writes: map<Cell, Rank>)
    requires WellFormed(db) && CanCommit(db, version, writes)
    ensures WellFormed(Commit(db, version, writes))
    ensures OnlyNewer(db, Commit(db, version, writes)) && OnlyBetter(db, Commit(db, version, writes))
  {
  }

  lemma MergeMoves(db: Db, site: SiteId, rows: seq<Row>)
    requires WellFormed(db)
    ensures WellFormed(Merge(db, site, rows))
    ensures OnlyNewer(db, Merge(db, site, rows)) && OnlyBetter(db, Merge(db, site, rows))
    ensures forall row :: row in rows ==> Dominates(Merge(db, site, rows).cells, row.cell, row.rank)
  {
    MergeIsJoin(db.cells, rows);
    MaxVersionIsMax(rows);
  }

  /** Facts about one node's database survive its own moves. */
  lemma CoveredKept(a: Db, a': Db, b: Db, b': Db, v: int)
    requires Covered(a, b, v) && OnlyBetter(a, a') && OnlyNewer(b, b') && v <= b.clock
    ensures Covered(a', b', v)
  {
  }

  lemma CompleteKept(p: Response, db: Db, db': Db)
    requires Complete(p, db) && OnlyNewer(db, db')
    ensures Complete(p, db')
  {
  }

  /** `s'` is `s` after node `n` moved its database to `db'`. */
  ghost predicate Moves(s: State, s': State, n: NodeId, db': Db) {
    && n in s.nodes
    && s' == s.(nodes := s.nodes[n := s.nodes[n].(db := db')])
  }

  /** The heart of watermark soundness: a merged response closes the gap between
      what was tracked when the pull began and the version it carries. */
  lemma MergeExtendsCover(a: Db, b: Db, p: Response)
    requires WellFormed(a)
    requires Sound(a, b) && p.site == b.site && Complete(p, b)
    requires p.req.since <= Tracked(a, b.site)
    ensures Sound(Merge(a, p.site, p.rows), b)
  {
    MergeMoves(a, p.site, p.rows);
    MaxVersionIsMax(p.rows);
  }

  /** A move of one database whose new watermarks are sound. */
  ghost predicate GoodMove(s: State, n: NodeId, db': Db) {
    && n in s.nodes && WellFormed(db') && OnlyNewer(s.nodes[n].db, db') && OnlyBetter(s.nodes[n].db, db')
    && (forall site :: Tracked(s.nodes[n].db, site) <= Tracked(db', site))
    && (forall site :: site in db'.tracked ==> site in s.used)
    && (forall b :: b in s.nodes && b != n ==> Sound(db', s.nodes[b].db))
    && Tracked(db', db'.site) <= db'.clock
  }

  lemma GoodMoveKeepsMentions(s: State, s': State, n: NodeId, db': Db)
    requires Inv(s) && Moves(s, s', n, db') && GoodMove(s, n, db')
    ensures SitesOk(s') && MentionsOk(s') && DbsOk(s')
  {
  }

  lemma GoodMoveKeepsMessages(s: State, s': State, n: NodeId, db': Db)
    requires Inv(s) && Moves(s, s', n, db') && GoodMove(s, n, db')
    ensures RequestsOk(s') && ResponsesOk(s')
  {
    forall q | q in s'.requests && PullAlive(s', q)
      ensures q.since <= Tracked(s'.nodes[q.puller].db, q.target)
    {
      assert PullAlive(s, q);
    }
    forall p, b | p in s'.responses && b in s'.nodes && s'.nodes[b].db.site == p.site
      ensures Complete(p, s'.nodes[b].db)
    {
      assert Complete(p, s.nodes[b].db);
      if b == n {
        CompleteKept(p, s.nodes[n].db, db');
      }
    }
  }

  lemma GoodMoveKeepsWatermarks(s: State, s': State, n: NodeId, db': Db)
    requires Inv(s) && Moves(s, s', n, db') && GoodMove(s, n, db')
    ensures WatermarksOk(s')
  {
    var db := s.nodes[n].db;
    forall a, b | a in s'.nodes && b in s'.nodes ensures Sound(s'.nodes[a].db, s'.nodes[b].db) {
      assert Sound(s.nodes[a].db, s.nodes[b].db);
      if b == n && a != n {
        CoveredKept(s.nodes[a].db, s.nodes[a].db, db, db', Tracked(s.nodes[a].db, db.site));
      }
    }
  }

  lemma MoveKeepsInv(s: State, s': State, n: NodeId, db': Db)
    requires Inv(s) && Moves(s, s', n, db') && GoodMove(s, n, db')
    ensures Inv(s')
  {
    GoodMoveKeepsMentions(s, s', n, db');
    GoodMoveKeepsMessages(s, s', n, db');
    GoodMoveKeepsWatermarks(s, s', n, db');
  }

  lemma CommitKeepsInv(s: State, n: NodeId, version: int, writes: map<Cell, Rank>)
    requires Inv(s) && Enabled(s, LocalTxn(n, version, writes))
    ensures Inv(Apply(s, LocalTxn(n, version, writes)))
  {
    var db := s.nodes[n].db;
    var db' := Commit(db, version, writes);
    CommitMoves(db, version, writes);
    forall b | b in s.nodes ensures Sound(db', s.nodes[b].db) || b == n {
      assert Sound(db, s.nodes[b].db);
    }
    assert Sound(db, db);
    MoveKeepsInv(s, Apply(s, LocalTxn(n, version, writes)), n, db');
  }

  lemma DeliverKeepsInv(s: State, p: Response)
    requires Inv(s) && Enabled(s, Deliver(p))
    ensures Inv(Apply(s, Deliver(p)))
  {
    if p.site == p.req.target {
      var n := p.req.puller;
      var db := s.nodes[n].db;
      var db' := Merge(db, p.site, p.rows);
      MergeMoves(db, p.site, p.rows);
      MaxVersionIsMax(p.rows);
      assert Sound(db, db);
      forall b | b in s.nodes && b != n ensures Sound(db', s.nodes[b].db) {
        assert Sound(db, s.nodes[b].db);
        if s.nodes[b].db.site == p.site {
          MergeExtendsCover(db, s.nodes[b].db, p);
        } else {
          CoveredKept(db, db', s.nodes[b].db, s.nodes[b].db, Tracked(db, s.nodes[b].db.site));
        }
      }
      assert db.site == p.site ==> Complete(p, db);
      MoveKeepsInv(s, Apply(s, Deliver(p)), n, db');
    }
  }

  /** A step that leaves every database alone needs only its messages checked. */
  lemma TalkKeepsInv(s: State, s': State)
    requires Inv(s)
    requires s'.used == s.used && s'.nodes.Keys == s.nodes.Keys
    requires forall n :: n in s.nodes ==> s'.nodes[n].db == s.nodes[n].db
    requires MentionsOk(s') && RequestsOk(s') && ResponsesOk(s')
    ensures Inv(s')
  {
    forall a, b | a in s'.nodes && b in s'.nodes ensures Sound(s'.nodes[a].db, s'.nodes[b].db) {
      assert Sound(s.nodes[a].db, s.nodes[b].db);
    }
  }

  lemma NewResponseKeepsInv(s: State, p: Response)
    requires Inv(s) && p.req in s.requests && p.site in s.used
    requires forall n :: n in s.nodes && s.nodes[n].db.site == p.site ==> Complete(p, s.nodes[n].db)
    ensures Inv(s.(responses := s.responses + {p}))
  {
    TalkKeepsInv(s, s.(responses := s.responses + {p}));
  }

  lemma AnswerStatusKeepsInv(s: State, req: Request)
    requires Inv(s) && Enabled(s, AnswerStatus(req))
    ensures Inv(Apply(s, AnswerStatus(req)))
  {
    var status := StatusOf(s.nodes[req.peer].db);
    if req.since >= status.version {
      NewResponseKeepsInv(s, Response(req, status.site, []));
    } else {
      TalkKeepsInv(s, Apply(s, AnswerStatus(req)));
    }
  }

  lemma ScanIsComplete(db: Db, p: Response)
    requires WellFormed(db) && p.site == db.site && IsScan(p.rows, db.cells, p.req.since)
    ensures Complete(p, db)
  {
    MaxVersionIsMax(p.rows);
    forall row | row in p.rows ensures row.version <= db.clock {
      assert row in LocalAbove(db.cells, p.req.since);
    }
  }

  lemma AnswerRowsKeepsInv(s: State, scan: Scan, rows: seq<Row>)
    requires Inv(s) && Enabled(s, AnswerRows(scan, rows))
    ensures Inv(Apply(s, AnswerRows(scan, rows)))
  {
    var p := Response(scan.req, scan.site, rows);
    ScanIsComplete(s.nodes[scan.req.peer].db, p);
    NewResponseKeepsInv(s, p);
  }

  lemma NewRequestKeepsInv(s: State, q: Request)
    requires Inv(s) && q.id == s.nextId && q.pullerSite in s.used && q.target in s.used
    requires PullAlive(s, q) ==> q.since <= Tracked(s.nodes[q.puller].db, q.target)
    ensures Inv(s.(requests := s.requests + {q}, nextId := s.nextId + 1))
  {
    TalkKeepsInv(s, s.(requests := s.requests + {q}, nextId := s.nextId + 1));
  }

  lemma BeginPullKeepsInv(s: State, a: NodeId, b: NodeId)
    requires Inv(s) && Enabled(s, BeginPull(a, b))
    ensures Inv(Apply(s, BeginPull(a, b)))
  {
    if !Skips(s.nodes[a].db, s.nodes[a].seen[b]) {
      NewRequestKeepsInv(s, RequestOf(s, a, b));
    }
  }

  lemma AnnounceKeepsInv(s: State, n: NodeId)
    requires Inv(s) && Enabled(s, Announce(n))
    ensures Inv(Apply(s, Announce(n)))
  {
    TalkKeepsInv(s, Apply(s, Announce(n)));
  }

  lemma ReadingKeepsMessages(s: State, s': State, a: NodeId, seen: map<NodeId, Status>)
    requires Inv(s) && a in s.nodes && forall b :: b in seen ==> seen[b].site in s.used
    requires s' == s.(nodes := s.nodes[a := s.nodes[a].(seen := seen)])
    ensures MentionsOk(s') && RequestsOk(s')
  {
  }

  lemma ReadingKeepsInv(s: State, s': State, a: NodeId, seen: map<NodeId, Status>)
    requires Inv(s) && a in s.nodes && forall b :: b in seen ==> seen[b].site in s.used
    requires s' == s.(nodes := s.nodes[a := s.nodes[a].(seen := seen)])
    ensures Inv(s')
  {
    hide RequestsOk, MentionsOk;
    ReadingKeepsMessages(s, s', a, seen);
    forall p, n | p in s'.responses && n in s'.nodes && s'.nodes[n].db.site == p.site
      ensures Complete(p, s'.nodes[n].db)
    {
      assert Complete(p, s.nodes[n].db);
    }
    TalkKeepsInv(s, s');
  }

  lemma RefreshKeepsInv(s: State, a: NodeId, b: NodeId)
    requires Inv(s) && Enabled(s, Refresh(a, b))
    ensures Inv(Apply(s, Refresh(a, b)))
  {
    ReadingKeepsInv(s, Apply(s, Refresh(a, b)), a, s.nodes[a].seen[b := s.dht[b]]);
  }

  lemma FreshTracksNothing(site: SiteId, b: Db)
    requires WellFormed(b)
    ensures Sound(FreshDb(site), b)
  {
  }

  lemma FreshIsCovered(a: Db, site: SiteId)
    requires site !in a.tracked
    ensures Sound(a, FreshDb(site))
  {
  }

  lemma FreshIsSound(s: State, s': State, n: NodeId, site: SiteId)
    requires Inv(s) && n in s.nodes && site !in s.used
    requires s' == s.(nodes := s.nodes[n := Node(FreshDb(site), map[])], used := s.used + {site})
    ensures WatermarksOk(s')
  {
    hide RequestsOk, ResponsesOk, Sound, WellFormed;
    forall a, b | a in s'.nodes && b in s'.nodes ensures Sound(s'.nodes[a].db, s'.nodes[b].db) {
      FreshIsCovered(FreshDb(site), site);
      assert Sound(s.nodes[a].db, s.nodes[b].db) && WellFormed(s.nodes[b].db);
      FreshTracksNothing(site, s.nodes[b].db);
      FreshIsCovered(s.nodes[a].db, site);
    }
  }

  lemma FreshIsUnmentioned(s: State, s': State, n: NodeId, site: SiteId)
    requires Inv(s) && n in s.nodes && site !in s.used
    requires s' == s.(nodes := s.nodes[n := Node(FreshDb(site), map[])], used := s.used + {site})
    ensures SitesOk(s') && MentionsOk(s')
  {
  }

  lemma FreshOwesNothing(s: State, s': State, n: NodeId, site: SiteId)
    requires Inv(s) && n in s.nodes && site !in s.used
    requires s' == s.(nodes := s.nodes[n := Node(FreshDb(site), map[])], used := s.used + {site})
    ensures DbsOk(s') && RequestsOk(s') && ResponsesOk(s')
  {
    forall p, m | p in s'.responses && m in s'.nodes && s'.nodes[m].db.site == p.site
      ensures Complete(p, s'.nodes[m].db)
    {
      assert Complete(p, s.nodes[m].db);
    }
    forall q | q in s'.requests && PullAlive(s', q)
      ensures q.since <= Tracked(s'.nodes[q.puller].db, q.target)
    {
      assert q.pullerSite != site && PullAlive(s, q);
    }
  }

  /** A database behind the same DHT key is replaced by a fresh one. */
  lemma ReplaceKeepsInv(s: State, n: NodeId, site: SiteId)
    requires Inv(s) && Enabled(s, ReplaceDb(n, site))
    ensures Inv(Apply(s, ReplaceDb(n, site)))
  {
    FreshIsSound(s, Apply(s, ReplaceDb(n, site)), n, site);
    FreshIsUnmentioned(s, Apply(s, ReplaceDb(n, site)), n, site);
    FreshOwesNothing(s, Apply(s, ReplaceDb(n, site)), n, site);
  }

  lemma StepKeepsInv(s: State, l: Label)
    requires Inv(s) && Enabled(s, l)
    ensures Inv(Apply(s, l))
  {
    match l
    case LocalTxn(n, version, writes) => CommitKeepsInv(s, n, version, writes);
    case Announce(n) => AnnounceKeepsInv(s, n);
    case Refresh(a, b) => RefreshKeepsInv(s, a, b);
    case BeginPull(a, b) => BeginPullKeepsInv(s, a, b);
    case AnswerStatus(req) => AnswerStatusKeepsInv(s, req);
    case AnswerRows(scan, rows) => AnswerRowsKeepsInv(s, scan, rows);
    case Deliver(p) => DeliverKeepsInv(s, p);
    case ReplaceDb(n, site) => ReplaceKeepsInv(s, n, site);
  }

  lemma {:induction false} ReachableInv(r: Run, i: nat)
    requires r.Valid() && i < |r.states|
    ensures Inv(r.states[i])
  {
    if i == 0 {
      InitInv(r.states[0]);
    } else {
      ReachableInv(r, i - 1);
      StepKeepsInv(r.states[i - 1], r.labels[i - 1]);
    }
  }
}
