/** Convergence, and a bound on the work left, once local writes have stopped. */
module Convergence {
  import opened Basics
  import opened Replica
  import opened Protocol
  import opened Watermarks
  import opened Safety
  import opened Exposure

  // ------------------------------------------------------------ quiet steps

  /** How a database moves while nobody writes: its local set only shrinks, its
      copies only get better, its watermarks only rise. */
  ghost predicate QuietMove(before: Db, after: Db) {
    && before.site == after.site
    && (forall c :: HoldsLocal(after.cells, c) ==> c in before.cells && before.cells[c] == after.cells[c])
    && OnlyBetter(before, after)
    && (forall site :: Tracked(before, site) <= Tracked(after, site))
  }

  lemma MergeIsQuiet(db: Db, site: SiteId, rows: seq<Row>)
    requires WellFormed(db)
    ensures QuietMove(db, Merge(db, site, rows))
  {
    MergeMoves(db, site, rows);
    MergeIsJoin(db.cells, rows);
    MaxVersionIsMax(rows);
    forall c | HoldsLocal(MergeRows(db.cells, rows), c)
      ensures c in db.cells && db.cells[c] == MergeRows(db.cells, rows)[c]
    {
      assert Explained(db.cells, rows, c, MergeRows(db.cells, rows)[c]);
    }
  }

  lemma QuietStep(s: State, l: Label, n: NodeId)
    requires Inv(s) && Enabled(s, l) && !l.LocalTxn? && !l.ReplaceDb? && n in s.nodes
    ensures n in Apply(s, l).nodes && QuietMove(s.nodes[n].db, Apply(s, l).nodes[n].db)
  {
    if MovesNoDatabase(l) {
      StillDatabases(s, l);
    } else if n == l.resp.req.puller {
      assert WellFormed(s.nodes[n].db);
      MergeIsQuiet(s.nodes[n].db, l.resp.site, l.resp.rows);
    }
  }

  /** Every row `a` could still need from `b` is dominated at `a`. */
  ghost predicate CaughtUp(a: Db, b: Db) {
    forall c :: HoldsLocal(b.cells, c) ==> Dominates(a.cells, c, b.cells[c].rank)
  }

  /** The watermark of `a` for `b` is past every row `b` still holds as local. */
  ghost predicate TrackedUp(a: Db, b: Db) {
    forall c :: HoldsLocal(b.cells, c) ==> b.cells[c].version <= Tracked(a, b.site)
  }

  /** `status` is recent: it covers every row `b` still holds as local. */
  ghost predicate Recent(status: Status, b: Db) {
    status.site == b.site && forall c :: HoldsLocal(b.cells, c) ==> b.cells[c].version <= status.version
  }

  /** Response `p` carries everything above `since` that `b` still holds. */
  ghost predicate Sufficient(p: Response, b: Db) {
    && p.site == b.site
    && forall c :: HoldsLocal(b.cells, c) && b.cells[c].version > p.req.since
         ==> Row(c, b.cells[c].rank, b.cells[c].version) in p.rows
  }

  lemma QuietMoveKeeps(a: Db, a': Db, b: Db, b': Db, status: Status, p: Response)
    requires QuietMove(a, a') && QuietMove(b, b')
    ensures CaughtUp(a, b) ==> CaughtUp(a', b')
    ensures TrackedUp(a, b) ==> TrackedUp(a', b')
    ensures Recent(status, b) ==> Recent(status, b')
    ensures Sufficient(p, b) ==> Sufficient(p, b')
  {
  }

  /** From step `t` on nobody writes and no database is replaced. */
  ghost predicate Quiet(r: Run, t: nat) {
    r.Valid() && NoReplaceFrom(r, t) && QuietFrom(r, t) && t < |r.states|
  }

  lemma QuietRunStep(r: Run, t: nat, i: nat, n: NodeId)
    requires Quiet(r, t) && t <= i < |r.labels| && n in r.states[i].nodes
    ensures n in r.states[i + 1].nodes && QuietMove(DbAt(r, i, n), DbAt(r, i + 1, n))
  {
    ReachableInv(r, i);
    QuietStep(r.states[i], r.labels[i], n);
  }

  lemma QuietMovesCompose(db: Db, db': Db, db'': Db)
    requires QuietMove(db, db') && QuietMove(db', db'')
    ensures QuietMove(db, db'')
  {
  }

  lemma {:induction false} QuietSpan(r: Run, t: nat, i: nat, j: nat, n: NodeId)
    requires Quiet(r, t) && t <= i <= j < |r.states| && n in r.states[i].nodes
    ensures n in r.states[j].nodes && QuietMove(DbAt(r, i, n), DbAt(r, j, n))
  {
    if i == j {
    } else {
      hide Quiet, QuietMove;
      QuietSpan(r, t, i, j - 1, n);
      QuietRunStep(r, t, j - 1, n);
      QuietMovesCompose(DbAt(r, i, n), DbAt(r, j - 1, n), DbAt(r, j, n));
    }
  }

  /** Facts about what `a` has of `b` persist while nobody writes. */
  lemma QuietKeeps(r: Run, t: nat, i: nat, j: nat, a: NodeId, b: NodeId)
    requires Quiet(r, t) && t <= i <= j < |r.states| && a in r.states[i].nodes && b in r.states[i].nodes
    ensures a in r.states[j].nodes && b in r.states[j].nodes
    ensures DbAt(r, i, b).site == DbAt(r, j, b).site
    ensures CaughtUp(DbAt(r, i, a), DbAt(r, i, b)) ==> CaughtUp(DbAt(r, j, a), DbAt(r, j, b))
    ensures TrackedUp(DbAt(r, i, a), DbAt(r, i, b)) ==> TrackedUp(DbAt(r, j, a), DbAt(r, j, b))
    ensures forall status :: Recent(status, DbAt(r, i, b)) ==> Recent(status, DbAt(r, j, b))
    ensures forall p :: Sufficient(p, DbAt(r, i, b)) ==> Sufficient(p, DbAt(r, j, b))
  {
    QuietSpan(r, t, i, j, a);
    QuietSpan(r, t, i, j, b);
    forall status, p
      ensures Recent(status, DbAt(r, i, b)) ==> Recent(status, DbAt(r, j, b))
      ensures Sufficient(p, DbAt(r, i, b)) ==> Sufficient(p, DbAt(r, j, b))
    {
      QuietMoveKeeps(DbAt(r, i, a), DbAt(r, j, a), DbAt(r, i, b), DbAt(r, j, b), status, p);
    }
    QuietMoveKeeps(
      DbAt(r, i, a), DbAt(r, j, a), DbAt(r, i, b), DbAt(r, j, b),
      Status([], 0), Response(Request(0, 0, [], 0, [], 0), [], []));
  }

  // ---------------------------------------------------- statuses stay recent

  lemma StatusIsRecent(db: Db)
    ensures Recent(StatusOf(db), db)
  {
  }

  lemma {:induction false} AnnouncedIsRecent(r: Run, t: nat, i: nat, j: nat, b: NodeId)
    requires Quiet(r, t) && t <= i < j < |r.states| && r.labels[i] == Announce(b)
    ensures b in r.states[j].nodes && b in r.states[j].dht && Recent(r.states[j].dht[b], DbAt(r, j, b))
  {
    if r.labels[j - 1] == Announce(b) {
      StatusIsRecent(DbAt(r, j - 1, b));
    } else {
      AnnouncedIsRecent(r, t, i, j - 1, b);
      QuietKeeps(r, t, j - 1, j, b, b);
    }
  }

  lemma {:induction false} SeenIsRecent(r: Run, t: nat, k: nat, i: nat, j: nat, a: NodeId, b: NodeId)
    requires Quiet(r, t) && t <= k < i < j < |r.states| && r.labels[k] == Announce(b) && r.labels[i] == Refresh(a, b)
    ensures a in r.states[j].nodes && b in r.states[j].nodes && b in r.states[j].nodes[a].seen
    ensures Recent(r.states[j].nodes[a].seen[b], DbAt(r, j, b))
  {
    assert r.states[j] == Apply(r.states[j - 1], r.labels[j - 1]);
    if r.labels[j - 1] == Refresh(a, b) {
      AnnouncedIsRecent(r, t, k, j - 1, b);
      QuietKeeps(r, t, j - 1, j, a, b);
    } else {
      SeenIsRecent(r, t, k, i, j - 1, a, b);
      QuietKeeps(r, t, j - 1, j, a, b);
    }
  }

  // ------------------------------------------------------------------ pulls

  /** Step `j` sends request `q`. */
  ghost predicate Sends(r: Run, j: nat, q: Request)
    requires r.Valid()
  {
    && j < |r.labels| && r.labels[j] == BeginPull(q.puller, q.peer)
    && !Skips(DbAt(r, j, q.puller), r.states[j].nodes[q.puller].seen[q.peer])
    && q == RequestOf(r.states[j], q.puller, q.peer)
  }

  /** Step `d` merges a response to `q`. */
  ghost predicate Completes(r: Run, d: nat, q: Request) {
    && d < |r.labels| && r.labels[d].Deliver? && r.labels[d].resp.req == q
    && r.labels[d].resp.site == q.target
  }

  /** What must hold of every response to `q` for it to be sufficient. */
  ghost predicate AnswersSuffice(s: State, q: Request, b: Db) {
    forall p :: p in s.responses && p.req == q ==> Sufficient(p, b)
  }

  lemma AnswerStepSuffices(s: State, l: Label, q: Request, p: Response)
    requires Enabled(s, l) && q.peer in s.nodes && p.req == q && p in Apply(s, l).responses && p !in s.responses
    ensures Sufficient(p, s.nodes[q.peer].db)
  {
    var db := s.nodes[q.peer].db;
    if l.AnswerRows? {
      forall c | HoldsLocal(db.cells, c) && db.cells[c].version > q.since
        ensures Row(c, db.cells[c].rank, db.cells[c].version) in p.rows
      {
        assert Row(c, db.cells[c].rank, db.cells[c].version) in LocalAbove(db.cells, q.since);
      }
    }
  }

  /** A request sent after writes stopped is only ever answered in full. */
  lemma {:induction false} AnswersAreSufficient(r: Run, t: nat, j: nat, k: nat, q: Request)
    requires Quiet(r, t) && t <= j < k < |r.states| && Sends(r, j, q)
    ensures q.peer in r.states[k].nodes && AnswersSuffice(r.states[k], q, DbAt(r, k, q.peer))
  {
    assert Enabled(r.states[j], r.labels[j]);
    QuietKeeps(r, t, j, k - 1, q.peer, q.peer);
    QuietKeeps(r, t, k - 1, k, q.peer, q.peer);
    if k == j + 1 {
      ReachableInv(r, j);
    } else {
      AnswersAreSufficient(r, t, j, k - 1, q);
      forall p | p in r.states[k].responses && p.req == q
        ensures Sufficient(p, DbAt(r, k, q.peer))
      {
        if p !in r.states[k - 1].responses {
          AnswerStepSuffices(r.states[k - 1], r.labels[k - 1], q, p);
        }
      }
    }
  }

  lemma MergeCatchesUp(a: Db, b: Db, p: Response)
    requires WellFormed(a) && Sound(a, b) && Sufficient(p, b) && p.req.since <= Tracked(a, b.site)
    ensures CaughtUp(Merge(a, p.site, p.rows), b) && TrackedUp(Merge(a, p.site, p.rows), b)
  {
    MergeMoves(a, p.site, p.rows);
    MaxVersionIsMax(p.rows);
  }

  /** A pull that was sent after writes stopped and completes leaves the puller
      caught up with its peer, and its watermark past all the peer still holds. */
  lemma CompletedPullCatchesUp(r: Run, t: nat, j: nat, d: nat, q: Request)
    requires Quiet(r, t) && t <= j < d && Sends(r, j, q) && Completes(r, d, q)
    ensures q.puller in r.states[d + 1].nodes && q.peer in r.states[d + 1].nodes
    ensures CaughtUp(DbAt(r, d + 1, q.puller), DbAt(r, d + 1, q.peer))
    ensures TrackedUp(DbAt(r, d + 1, q.puller), DbAt(r, d + 1, q.peer))
  {
    var s, p := r.states[d], r.labels[d].resp;
    assert Enabled(r.states[j], r.labels[j]);
    assert Enabled(s, r.labels[d]) && r.states[d + 1] == Apply(s, r.labels[d]);
    AnswersAreSufficient(r, t, j, d, q);
    ReachableInv(r, d);
    assert Sound(s.nodes[q.puller].db, s.nodes[q.peer].db);
    MergeCatchesUp(s.nodes[q.puller].db, s.nodes[q.peer].db, p);
    assert q.puller != q.peer;
  }

  lemma SkippedPullIsCaughtUp(a: Db, b: Db, status: Status)
    requires Sound(a, b) && Recent(status, b) && Skips(a, status)
    ensures CaughtUp(a, b)
  {
  }

  /** Node `a` pulls from `b` at or after step `from`: it refreshes the status,
      begins, and either skips or merges a response to its request. */
  ghost predicate Pulls(r: Run, from: nat, a: NodeId, b: NodeId)
    requires r.Valid()
  {
    exists i, j :: from <= i < j && PullAt(r, i, j, a, b)
  }

  ghost predicate PullAt(r: Run, i: nat, j: nat, a: NodeId, b: NodeId)
    requires r.Valid() && i < j
  {
    && j < |r.labels| && r.labels[i] == Refresh(a, b) && r.labels[j] == BeginPull(a, b)
    && (Skips(DbAt(r, j, a), r.states[j].nodes[a].seen[b]) || CompletesLater(r, j, RequestOf(r.states[j], a, b)))
  }

  ghost predicate CompletesLater(r: Run, j: nat, q: Request) {
    exists d :: j < d && Completes(r, d, q)
  }

  ghost predicate AnnouncesBetween(r: Run, t: nat, t': nat, b: NodeId) {
    exists k :: t <= k < t' && k < |r.labels| && r.labels[k] == Announce(b)
  }

  lemma SkipMeansCaughtUp(r: Run, t: nat, j: nat, a: NodeId, b: NodeId)
    requires Quiet(r, t) && t <= j < |r.labels| && r.labels[j] == BeginPull(a, b)
    requires b in r.states[j].nodes && Recent(r.states[j].nodes[a].seen[b], DbAt(r, j, b))
    requires Skips(DbAt(r, j, a), r.states[j].nodes[a].seen[b])
    ensures a in r.Final().nodes && b in r.Final().nodes
    ensures CaughtUp(r.Final().nodes[a].db, r.Final().nodes[b].db)
  {
    ReachableInv(r, j);
    SkippedPullIsCaughtUp(DbAt(r, j, a), DbAt(r, j, b), r.states[j].nodes[a].seen[b]);
    QuietKeeps(r, t, j, |r.labels|, a, b);
  }

  lemma CompletionMeansCaughtUp(r: Run, t: nat, j: nat, q: Request)
    requires Quiet(r, t) && t <= j && Sends(r, j, q) && CompletesLater(r, j, q)
    ensures q.puller in r.Final().nodes && q.peer in r.Final().nodes
    ensures CaughtUp(r.Final().nodes[q.puller].db, r.Final().nodes[q.peer].db)
  {
    var d :| j < d && Completes(r, d, q);
    CompletedPullCatchesUp(r, t, j, d, q);
    QuietKeeps(r, t, d + 1, |r.labels|, q.puller, q.peer);
  }

  lemma PulledMeansCaughtUp(r: Run, t: nat, t': nat, a: NodeId, b: NodeId)
    requires Quiet(r, t) && AnnouncesBetween(r, t, t', b) && Pulls(r, t', a, b)
    ensures a in r.Final().nodes && b in r.Final().nodes
    ensures CaughtUp(r.Final().nodes[a].db, r.Final().nodes[b].db)
  {
    var k :| t <= k < t' && k < |r.labels| && r.labels[k] == Announce(b);
    var i, j :| t' <= i < j && PullAt(r, i, j, a, b);
    if Skips(DbAt(r, j, a), r.states[j].nodes[a].seen[b]) {
      SeenIsRecent(r, t, k, i, j, a, b);
      SkipMeansCaughtUp(r, t, j, a, b);
    } else {
      CompletionMeansCaughtUp(r, t, j, RequestOf(r.states[j], a, b));
    }
  }

  // ------------------------------------------------------------ convergence

  /** Every node holds cell `c` with the greatest rank ever written into it. */
  ghost predicate HoldsGreatest(r: Run, db: Db, c: Cell) {
    && c in db.cells
    && WrittenBefore(r, |r.labels|, c, db.cells[c].rank)
    && forall x :: WrittenBefore(r, |r.labels|, c, x) ==> x <= db.cells[c].rank
  }

  lemma CaughtUpHoldsGreatest(r: Run, a: NodeId, c: Cell, x: Rank)
    requires r.Valid() && NoReplace(r) && a in r.Final().nodes && WrittenBefore(r, |r.labels|, c, x)
    requires forall b :: b in r.Final().nodes ==> CaughtUp(r.Final().nodes[a].db, r.Final().nodes[b].db)
    ensures Dominates(r.Final().nodes[a].db.cells, c, x)
  {
    WrittenStaysShown(r, |r.labels|, c, x);
    var s := r.Final();
    var b :| b in s.nodes && HoldsLocal(s.nodes[b].db.cells, c) && s.nodes[b].db.cells[c].rank >= x;
    assert CaughtUp(s.nodes[a].db, s.nodes[b].db);
  }

  /** Writes have stopped at step `t`, and since then every node has announced and
      every ordered pair has completed a pull begun after that, in any order and
      with any old response still arriving. */
  ghost predicate Settled(r: Run, t: nat, t': nat) {
    && Quiet(r, t)
    && (forall b :: b in r.Final().nodes ==> AnnouncesBetween(r, t, t', b))
    && (forall a, b :: a in r.Final().nodes && b in r.Final().nodes && a != b ==> Pulls(r, t', a, b))
  }

  lemma SettledMeansCaughtUp(r: Run, t: nat, t': nat)
    requires Settled(r, t, t')
    ensures forall a, b :: a in r.Final().nodes && b in r.Final().nodes ==>
      CaughtUp(r.Final().nodes[a].db, r.Final().nodes[b].db)
  {
    var s := r.Final();
    forall a, b | a in s.nodes && b in s.nodes ensures CaughtUp(s.nodes[a].db, s.nodes[b].db) {
      if a != b {
        PulledMeansCaughtUp(r, t, t', a, b);
      }
    }
  }

  /** Convergence. When no database was ever replaced and the system has settled,
      every node holds exactly the cells ever written, each with the greatest rank
      ever written into it; so all nodes agree. */
  lemma Convergence(r: Run, t: nat, t': nat)
    requires Settled(r, t, t') && NoReplace(r)
    ensures forall a, c, x :: a in r.Final().nodes && WrittenBefore(r, |r.labels|, c, x) ==>
      HoldsGreatest(r, r.Final().nodes[a].db, c)
    ensures forall a, c :: a in r.Final().nodes && c in r.Final().nodes[a].db.cells ==>
      HoldsGreatest(r, r.Final().nodes[a].db, c)
    ensures forall a, k, c ::
      (a in r.Final().nodes && 0 <= k < |r.labels| && r.labels[k].LocalTxn? && c in r.labels[k].writes) ==>
      c in r.Final().nodes[a].db.cells && r.labels[k].writes[c] <= r.Final().nodes[a].db.cells[c].rank
    ensures forall a, b, c :: a in r.Final().nodes && b in r.Final().nodes && c in r.Final().nodes[a].db.cells ==>
      c in r.Final().nodes[b].db.cells && r.Final().nodes[b].db.cells[c].rank == r.Final().nodes[a].db.cells[c].rank
  {
    var s := r.Final();
    SettledMeansCaughtUp(r, t, t');
    forall a, c, x | a in s.nodes && WrittenBefore(r, |r.labels|, c, x)
      ensures Dominates(s.nodes[a].db.cells, c, x)
    {
      CaughtUpHoldsGreatest(r, a, c, x);
    }
    forall a, k, c | a in s.nodes && 0 <= k < |r.labels| && r.labels[k].LocalTxn? && c in r.labels[k].writes
      ensures Dominates(s.nodes[a].db.cells, c, r.labels[k].writes[c])
    {
      assert Writes(r.labels[k], c, r.labels[k].writes[c]);
      assert WrittenBefore(r, |r.labels|, c, r.labels[k].writes[c]);
    }
    forall a, c | a in s.nodes && c in s.nodes[a].db.cells
      ensures WrittenBefore(r, |r.labels|, c, s.nodes[a].db.cells[c].rank)
    {
      assert InDatabase(s, c, s.nodes[a].db.cells[c].rank);
      PresentWasWritten(r, |r.labels|, c, s.nodes[a].db.cells[c].rank);
    }
  }

  /** Convergence after replacements. Databases may have been replaced before `t`,
      and rows lost with them. Every cell whose greatest rank in the system at `t`
      is still shown by some node ends up with that rank at every node. */
  lemma ConvergenceAfterReplacements(r: Run, t: nat, t': nat, c: Cell, x: Rank)
    requires Settled(r, t, t') && Greatest(r.states[t], c, x) && Shown(r.states[t], c, x)
    ensures forall a :: a in r.Final().nodes ==>
      c in r.Final().nodes[a].db.cells && r.Final().nodes[a].db.cells[c].rank == x
  {
    hide AnnouncesBetween, Pulls, CaughtUp, Shown, Bounds;
    SettledMeansCaughtUp(r, t, t');
    ShownTopStaysFrom(r, t, |r.labels|, c, x);
    forall a | a in r.Final().nodes
      ensures c in r.Final().nodes[a].db.cells && r.Final().nodes[a].db.cells[c].rank == x
    {
      CaughtUpHoldsTop(r.Final(), a, c, x);
    }
  }

  lemma CaughtUpHoldsTop(s: State, a: NodeId, c: Cell, x: Rank)
    requires a in s.nodes && Shown(s, c, x) && Bounds(s, c, x)
    requires forall b :: b in s.nodes ==> CaughtUp(s.nodes[a].db, s.nodes[b].db)
    ensures c in s.nodes[a].db.cells && s.nodes[a].db.cells[c].rank == x
  {
    var b :| b in s.nodes && HoldsLocal(s.nodes[b].db.cells, c) && s.nodes[b].db.cells[c].rank >= x;
    assert CaughtUp(s.nodes[a].db, s.nodes[b].db);
    assert InDatabase(s, c, s.nodes[a].db.cells[c].rank);
    assert Present(s, c, s.nodes[a].db.cells[c].rank);
  }

  // ----------------------------------------------------------- bounded work

  /** Step `d` changes the cells of the puller or some watermark it reads. */
  ghost predicate ChangesPuller(r: Run, d: nat)
    requires r.Valid() && d < |r.labels| && r.labels[d].Deliver?
  {
    var n := r.labels[d].resp.req.puller;
    || DbAt(r, d + 1, n).cells != DbAt(r, d, n).cells
    || exists site :: Tracked(DbAt(r, d + 1, n), site) != Tracked(DbAt(r, d, n), site)
  }

  /** Pull `j` has an effect: some response to its request changes the puller. */
  ghost predicate HasEffect(r: Run, j: nat)
    requires r.Valid()
  {
    exists q, d :: Sends(r, j, q) && j < d && Completes(r, d, q) && ChangesPuller(r, d)
  }

  /** A node does not pull a peer again before its pull of that peer is over, as
      in the puller's loop. */
  ghost predicate OneAtATime(r: Run)
    requires r.Valid()
  {
    forall j, q, d, k :: Sends(r, j, q) && j < k < d && Completes(r, d, q) ==>
      r.labels[k] != BeginPull(q.puller, q.peer)
  }

  ghost predicate NothingAbove(db: Db, since: int) {
    forall c :: HoldsLocal(db.cells, c) ==> db.cells[c].version <= since
  }

  /** A request sent when the puller has tracked everything asks for nothing. */
  lemma NothingLeftToAsk(r: Run, t: nat, j: nat, k: nat, q: Request)
    requires Quiet(r, t) && t <= j < k < |r.states| && Sends(r, j, q)
    requires TrackedUp(DbAt(r, j, q.puller), DbAt(r, j, q.peer)) && q.target == DbAt(r, j, q.peer).site
    ensures q.peer in r.states[k].nodes
    ensures NothingAbove(DbAt(r, k, q.peer), q.since)
  {
    assert Enabled(r.states[j], r.labels[j]);
    QuietSpan(r, t, j, k, q.peer);
  }

  lemma {:induction false} NothingLeftToAnswer(r: Run, t: nat, j: nat, k: nat, q: Request)
    requires Quiet(r, t) && t <= j < k < |r.states| && Sends(r, j, q)
    requires TrackedUp(DbAt(r, j, q.puller), DbAt(r, j, q.peer)) && q.target == DbAt(r, j, q.peer).site
    ensures forall p :: p in r.states[k].responses && p.req == q ==> p.rows == []
  {
    if k == j + 1 {
      assert Enabled(r.states[j], r.labels[j]) && r.states[k] == Apply(r.states[j], r.labels[j]);
      ReachableInv(r, j);
    } else {
      NothingLeftToAnswer(r, t, j, k - 1, q);
      NothingLeftToAsk(r, t, j, k - 1, q);
      forall p | p in r.states[k].responses && p.req == q ensures p.rows == [] {
        if p !in r.states[k - 1].responses {
          NoRowsAbove(r.states[k - 1], r.labels[k - 1], p);
        }
      }
    }
  }

  lemma NoRowsAbove(s: State, l: Label, p: Response)
    requires Enabled(s, l) && p in Apply(s, l).responses && p !in s.responses && p.req.peer in s.nodes
    requires NothingAbove(s.nodes[p.req.peer].db, p.req.since)
    ensures p.rows == []
  {
    assert LocalAbove(s.nodes[p.req.peer].db.cells, p.req.since) == {};
    SomeMember(p.rows);
  }

  lemma EmptyMergeChangesNothing(db: Db, site: SiteId)
    requires WellFormed(db)
    ensures Merge(db, site, []).cells == db.cells
    ensures forall s :: Tracked(Merge(db, site, []), s) == Tracked(db, s)
  {
  }

  /** A pull that completes was about the database its peer then had. */
  lemma TargetIsTheSite(r: Run, t: nat, j: nat, d: nat, q: Request)
    requires Quiet(r, t) && t <= j < d && Sends(r, j, q) && Completes(r, d, q)
    ensures q.peer in r.states[j].nodes && q.target == DbAt(r, j, q.peer).site
  {
    assert Enabled(r.states[j], r.labels[j]) && Enabled(r.states[d], r.labels[d]);
    AnswersAreSufficient(r, t, j, d, q);
    QuietSpan(r, t, j, d, q.peer);
    assert Sufficient(r.labels[d].resp, DbAt(r, d, q.peer));
  }

  /** A pull begun after an earlier one of the same pair was over has no effect. */
  lemma SecondPullHasNoEffect(r: Run, t: nat, j1: nat, d1: nat, q1: Request, j2: nat, d2: nat, q2: Request)
    requires Quiet(r, t) && t <= j1 < d1 < j2 < d2
    requires Sends(r, j1, q1) && Completes(r, d1, q1) && Sends(r, j2, q2) && Completes(r, d2, q2)
    requires q1.puller == q2.puller && q1.peer == q2.peer
    ensures !ChangesPuller(r, d2)
  {
    CompletedPullCatchesUp(r, t, j1, d1, q1);
    QuietKeeps(r, t, d1 + 1, j2, q1.puller, q1.peer);
    TargetIsTheSite(r, t, j2, d2, q2);
    NothingLeftToAnswer(r, t, j2, d2, q2);
    assert Enabled(r.states[d2], r.labels[d2]) && r.states[d2 + 1] == Apply(r.states[d2], r.labels[d2]);
    ReachableInv(r, d2);
    EmptyMergeChangesNothing(DbAt(r, d2, q2.puller), q2.target);
  }

  /** Among the pulls of one ordered pair begun after writes stopped, at most one
      has an effect. */
  lemma AtMostOneEffect(r: Run, t: nat, j1: nat, j2: nat)
    requires Quiet(r, t) && OneAtATime(r) && t <= j1 < |r.labels| && t <= j2 < |r.labels|
    requires HasEffect(r, j1) && HasEffect(r, j2) && r.labels[j1] == r.labels[j2]
    ensures j1 == j2
  {
    if j1 < j2 {
      LaterHasNoEffect(r, t, j1, j2);
    } else if j2 < j1 {
      LaterHasNoEffect(r, t, j2, j1);
    }
  }

  lemma LaterHasNoEffect(r: Run, t: nat, j1: nat, j2: nat)
    requires Quiet(r, t) && OneAtATime(r) && t <= j1 < j2 < |r.labels|
    requires HasEffect(r, j1) && r.labels[j1] == r.labels[j2]
    ensures !HasEffect(r, j2)
  {
    var q1, d1 :| Sends(r, j1, q1) && j1 < d1 && Completes(r, d1, q1) && ChangesPuller(r, d1);
    forall q2, d2 | Sends(r, j2, q2) && j2 < d2 && Completes(r, d2, q2) ensures !ChangesPuller(r, d2) {
      assert d1 != j2;
      SecondPullHasNoEffect(r, t, j1, d1, q1, j2, d2, q2);
    }
  }

  /** The pulls begun at or after `t` that have an effect. */
  ghost function Working(r: Run, t: nat): set<nat>
    requires r.Valid()
  {
    set j: nat | t <= j < |r.labels| && HasEffect(r, j)
  }

  /** Nothing escapes the count: a delivery that changes a cell or a watermark of its
      puller belongs to a pull begun before `t` or to one that is counted. */
  lemma EveryChangeIsCounted(r: Run, t: nat, d: nat, p: Response, site: SiteId) returns (j: nat)
    requires r.Valid() && d < |r.labels| && r.labels[d] == Deliver(p)
    requires p.req.puller in r.states[d].nodes && p.req.puller in r.states[d + 1].nodes
    requires var before, after := r.states[d].nodes[p.req.puller].db, r.states[d + 1].nodes[p.req.puller].db;
      after.cells != before.cells || Tracked(after, site) != Tracked(before, site)
    ensures j < d && r.labels[j] == BeginPull(p.req.puller, p.req.peer)
    ensures p.req.puller in r.states[j].nodes && p.req.peer in r.states[j].nodes[p.req.puller].seen
    ensures p.req == RequestOf(r.states[j], p.req.puller, p.req.peer)
    ensures j < t || j in Working(r, t)
  {
    assert Enabled(r.states[d], r.labels[d]) && r.states[d + 1] == Apply(r.states[d], r.labels[d]);
    var k := EveryAnswerWasGiven(r, d, p);
    j := EveryRequestWasSent(r, k, p.req);
    assert Sends(r, j, p.req) && Completes(r, d, p.req) && ChangesPuller(r, d);
    assert HasEffect(r, j);
  }

  ghost function PairOf(l: Label): (NodeId, NodeId)
    requires l.BeginPull?
  {
    (l.node, l.peer)
  }

  ghost function OrderedPairs(nodes: set<NodeId>): set<(NodeId, NodeId)> {
    set a, b | a in nodes && b in nodes && a != b :: (a, b)
  }

  lemma EffectsComeFromPairs(r: Run, t: nat)
    requires r.Valid()
    ensures forall j :: j in Working(r, t) ==>
      j < |r.labels| && r.labels[j].BeginPull? && PairOf(r.labels[j]) in OrderedPairs(r.Final().nodes.Keys)
  {
    forall j | j in Working(r, t)
      ensures r.labels[j].BeginPull? && PairOf(r.labels[j]) in OrderedPairs(r.Final().nodes.Keys)
    {
      NodesAreFixed(r, j, |r.labels|);
      assert Enabled(r.states[j], r.labels[j]);
    }
  }

  lemma EffectsDiffer(r: Run, t: nat)
    requires Quiet(r, t) && OneAtATime(r)
    ensures forall j1, j2 :: j1 in Working(r, t) && j2 in Working(r, t) && r.labels[j1] == r.labels[j2] ==> j1 == j2
  {
    forall j1, j2 | j1 in Working(r, t) && j2 in Working(r, t) && r.labels[j1] == r.labels[j2]
      ensures j1 == j2
    {
      AtMostOneEffect(r, t, j1, j2);
    }
  }

  lemma WorkFitsPairs(r: Run, t: nat)
    requires Quiet(r, t) && OneAtATime(r)
    ensures |Working(r, t)| <= |OrderedPairs(r.Final().nodes.Keys)|
  {
    EffectsComeFromPairs(r, t);
    EffectsDiffer(r, t);
    InjectionBound(r.labels, Working(r, t), OrderedPairs(r.Final().nodes.Keys));
  }

  /** Bounded work: when writes have stopped, `n` nodes that pull one peer at a
      time make at most `n * (n - 1)` more pulls that change anything. */
  lemma BoundedWork(r: Run, t: nat)
    requires Quiet(r, t) && OneAtATime(r)
    ensures |Working(r, t)| <= |r.Final().nodes.Keys| * (|r.Final().nodes.Keys| - 1)
  {
    WorkFitsPairs(r, t);
    PairCount(r.Final().nodes.Keys);
  }

  lemma {:induction false} InjectionBound(labels: seq<Label>, js: set<nat>, pairs: set<(NodeId, NodeId)>)
    requires forall j :: j in js ==> j < |labels| && labels[j].BeginPull? && PairOf(labels[j]) in pairs
    requires forall j1, j2 :: j1 in js && j2 in js && labels[j1] == labels[j2] ==> j1 == j2
    ensures |js| <= |pairs|
  {
    if js == {} {
    } else {
      var j :| j in js;
      InjectionBound(labels, js - {j}, pairs - {PairOf(labels[j])});
    }
  }

  /** The ordered pairs from `left` to other members of `nodes`. */
  ghost function PairsFrom(left: set<NodeId>, nodes: set<NodeId>): set<(NodeId, NodeId)> {
    set a, b | a in left && b in nodes && a != b :: (a, b)
  }

  lemma {:induction false} RowCount(a: NodeId, others: set<NodeId>)
    requires a !in others
    ensures |PairsFrom({a}, others)| == |others|
  {
    if others == {} {
      assert PairsFrom({a}, others) == {};
    } else {
      var b :| b in others;
      RowCount(a, others - {b});
      assert PairsFrom({a}, others) == PairsFrom({a}, others - {b}) + {(a, b)};
    }
  }

  lemma SplitOffRow(a: NodeId, left: set<NodeId>, nodes: set<NodeId>)
    requires a in left && left <= nodes
    ensures |PairsFrom(left, nodes)| == |PairsFrom(left - {a}, nodes)| + |nodes| - 1
  {
    RowCount(a, nodes - {a});
    assert PairsFrom({a}, nodes) == PairsFrom({a}, nodes - {a});
    assert PairsFrom(left, nodes) == PairsFrom(left - {a}, nodes) + PairsFrom({a}, nodes);
    assert PairsFrom(left - {a}, nodes) !! PairsFrom({a}, nodes);
  }

  lemma OneMoreRow(m: nat, n: int)
    ensures m * n == (m - 1) * n + n
  {
  }

  lemma {:induction false} PairsFromCount(left: set<NodeId>, nodes: set<NodeId>)
    requires left <= nodes
    ensures |PairsFrom(left, nodes)| == |left| * (|nodes| - 1)
  {
    if left == {} {
      assert PairsFrom(left, nodes) == {};
    } else {
      var a :| a in left;
      PairsFromCount(left - {a}, nodes);
      SplitOffRow(a, left, nodes);
      OneMoreRow(|left|, |nodes| - 1);
    }
  }

  lemma PairCount(nodes: set<NodeId>)
    ensures |OrderedPairs(nodes)| == |nodes| * (|nodes| - 1)
  {
    assert OrderedPairs(nodes) == PairsFrom(nodes, nodes);
    PairsFromCount(nodes, nodes);
  }
}
