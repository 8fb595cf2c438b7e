/** What a pull, and a round of pulls, leaves of the puller's database. */
module Rounds {
  import opened Basics
  import opened Messages
  import opened Replica
  import opened Database
  import Protocol
  import Safety
  import opened Watermarks

  /** An announced status as the protocol sees it. */
  function StatusIn(s: NodeStatus): Protocol.Status {
    Protocol.Status(s.siteId, s.dbVersion)
  }

  /** One pull: the status it goes by, whether its watermark can be read, what
      `Conclave::changes` returns if asked, where the merge fails, if it does, and
      what other tasks do to the database before the watermark is read and while
      the answer is awaited. */
  datatype Pull = Pull(
    status: NodeStatus,
    trackedOk: bool,
    answer: Result<ChangesResponse, Error>,
    fault: Fault,
    before: seq<Activity>,
    during: seq<Activity>)

  /** Whether a pull gets as far as committing, unless it skips. */
  predicate Commits(p: Pull) {
    && p.trackedOk && p.answer.Ok? && p.answer.value.siteId == p.status.siteId
    && !Strikes(p.fault, p.answer.value.changes)
  }

  /** The rows pull `p` was answered with. */
  function RowsIn(order: Order, p: Pull): seq<Row>
    requires p.answer.Ok?
  {
    RowsOf(order, p.answer.value.changes)
  }

  /** The pull ends before it asks its peer: the watermark cannot be read, or the
      status is not ahead of it. */
  predicate EndsEarly(db: Db, p: Pull) {
    !p.trackedOk || Protocol.Skips(db, StatusIn(p.status))
  }

  /** Other tasks may do what `p` says they do. */
  predicate CanPull(order: Order, db: Db, p: Pull) {
    && CanActAll(order, db, p.before)
    && (EndsEarly(ActAll(order, db, p.before), p) || CanActAll(order, ActAll(order, db, p.before), p.during))
  }

  /** What pull `p` leaves of a database. */
  function PullEffect(order: Order, db: Db, p: Pull): Db {
    var start := ActAll(order, db, p.before);
    if EndsEarly(start, p) then start
    else
      var now := ActAll(order, start, p.during);
      if Commits(p) then Merge(now, p.status.siteId, RowsIn(order, p)) else now
  }

  /** What pull `p` returns to its caller. */
  predicate PullReturns(order: Order, db: Db, p: Pull, r: Result<(bool, i64), Error>) {
    var start := ActAll(order, db, p.before);
    if p.trackedOk && Protocol.Skips(start, StatusIn(p.status)) then
      r.Ok? && !r.value.0 && r.value.1 == Tracked(start, p.status.siteId)
    else if Commits(p) then
      r.Ok? && r.value.0 && r.value.1 == MaxVersion(RowsIn(order, p))
    else r.Err?
  }

  lemma {:induction false} ActsOnlyImprove(order: Order, db: Db, acts: seq<Activity>)
    requires WellFormed(db) && CanActAll(order, db, acts)
    ensures var now := ActAll(order, db, acts);
      && WellFormed(now) && now.site == db.site && OnlyBetter(db, now)
      && forall site :: Tracked(now, site) >= Tracked(db, site)
  {
    if acts == [] {
    } else {
      var before, last := ActAll(order, db, acts[..|acts| - 1]), acts[|acts| - 1];
      ActsOnlyImprove(order, db, acts[..|acts| - 1]);
      match last
      case Committed(version, writes) => CommitMoves(before, version, WriteRanks(order, writes));
      case Merged(site, changes, fault) =>
        MergeMoves(before, site, RowsOf(order, changes));
        MaxVersionIsMax(RowsOf(order, changes));
    }
  }

  function RoundEffect(order: Order, db: Db, pulls: seq<Pull>): Db {
    if pulls == [] then db
    else PullEffect(order, RoundEffect(order, db, pulls[..|pulls| - 1]), pulls[|pulls| - 1])
  }

  predicate CanRound(order: Order, db: Db, pulls: seq<Pull>) {
    pulls == [] ||
    (&& CanRound(order, db, pulls[..|pulls| - 1])
     && CanPull(order, RoundEffect(order, db, pulls[..|pulls| - 1]), pulls[|pulls| - 1]))
  }

  lemma RoundOneMore(order: Order, db: Db, pulls: seq<Pull>, p: Pull)
    ensures RoundEffect(order, db, pulls + [p]) == PullEffect(order, RoundEffect(order, db, pulls), p)
    ensures CanRound(order, db, pulls + [p]) <==>
      CanRound(order, db, pulls) && CanPull(order, RoundEffect(order, db, pulls), p)
    ensures CanPull(order, RoundEffect(order, db, pulls), p) <==>
      var before := RoundEffect(order, db, pulls);
      && CanActAll(order, before, p.before)
      && (p.trackedOk && p.status.dbVersion > Tracked(ActAll(order, before, p.before), p.status.siteId) ==>
            CanActAll(order, ActAll(order, before, p.before), p.during))
  {
    assert (pulls + [p])[..|pulls|] == pulls;
  }

  /** A round that has the database to itself. */
  predicate Alone(pulls: seq<Pull>) {
    forall i :: 0 <= i < |pulls| ==> pulls[i].before == [] && pulls[i].during == []
  }

  // ---------------------------------------- order, whatever the peers answer

  /** The response pull `p` merges when it starts from `db`. */
  function BatchOf(order: Order, db: Db, p: Pull): seq<Batch> {
    if Protocol.Skips(db, StatusIn(p.status)) || !Commits(p) then []
    else [Batch(p.status.siteId, RowsIn(order, p))]
  }

  function BatchesOf(order: Order, db: Db, pulls: seq<Pull>): seq<Batch> {
    if pulls == [] then []
    else BatchesOf(order, db, pulls[..|pulls| - 1]) + BatchOf(order, db, pulls[|pulls| - 1])
  }

  /** Both statuses are of one database and ahead of its watermark. */
  predicate Rivals(db: Db, s1: NodeStatus, s2: NodeStatus) {
    s1.siteId == s2.siteId && !Protocol.Skips(db, StatusIn(s1)) && !Protocol.Skips(db, StatusIn(s2))
  }

  predicate NoRivals(db: Db, statuses: seq<NodeStatus>) {
    forall i, j :: 0 <= i < j < |statuses| ==> !Rivals(db, statuses[i], statuses[j])
  }

  function StatusesOf(pulls: seq<Pull>): (statuses: seq<NodeStatus>)
    ensures |statuses| == |pulls|
    ensures forall i :: 0 <= i < |pulls| ==> statuses[i] == pulls[i].status
  {
    seq(|pulls|, i requires 0 <= i < |pulls| => pulls[i].status)
  }

  lemma MergeAllAppend(db: Db, batches: seq<Batch>, b: Batch)
    ensures MergeAll(db, batches + [b]) == Merge(MergeAll(db, batches), b.site, b.rows)
  {
    assert (batches + [b])[..|batches|] == batches;
  }

  /** Watermarks only rise, and when one did, its database was merged from. */
  lemma TrackedAfter(db: Db, batches: seq<Batch>, site: SiteId)
    ensures Tracked(MergeAll(db, batches), site) >= Tracked(db, site)
    ensures Tracked(MergeAll(db, batches), site) > Tracked(db, site) ==>
      exists b :: b in batches && b.site == site
  {
    MergeAllWatermarks(db, batches);
    forall b: Batch ensures MaxVersion(b.rows) >= 0 {
      MaxVersionIsMax(b.rows);
    }
  }

  lemma {:induction false} BatchesMembers(order: Order, db: Db, pulls: seq<Pull>)
    ensures forall b :: b in BatchesOf(order, db, pulls) <==> exists p :: p in pulls && b in BatchOf(order, db, p)
  {
    if pulls == [] {
    } else {
      var init, last := pulls[..|pulls| - 1], pulls[|pulls| - 1];
      BatchesMembers(order, db, init);
      assert pulls == init + [last];
      assert forall p :: p in pulls <==> p in init || p == last;
    }
  }

  /** A pull without a rival before it meets the watermark the round began with,
      or skips as it would have then. */
  lemma NoRivalMovesWatermark(order: Order, db: Db, init: seq<Pull>, p: Pull)
    requires forall q :: q in init ==> !Rivals(db, q.status, p.status)
    ensures var now := MergeAll(db, BatchesOf(order, db, init));
      Protocol.Skips(now, StatusIn(p.status)) <==> Protocol.Skips(db, StatusIn(p.status))
  {
    if !Protocol.Skips(db, StatusIn(p.status)) {
      AheadMovedWatermark(order, db, init, p.status.siteId);
    }
    TrackedAfter(db, BatchesOf(order, db, init), p.status.siteId);
  }

  lemma AheadMovedWatermark(order: Order, db: Db, init: seq<Pull>, site: SiteId)
    ensures Tracked(MergeAll(db, BatchesOf(order, db, init)), site) > Tracked(db, site) ==>
      exists q :: q in init && q.status.siteId == site && !Protocol.Skips(db, StatusIn(q.status))
  {
    TrackedAfter(db, BatchesOf(order, db, init), site);
    BatchesMembers(order, db, init);
  }

  lemma {:induction false} RoundIsMergeAll(order: Order, db: Db, pulls: seq<Pull>)
    requires Alone(pulls) && NoRivals(db, StatusesOf(pulls))
    ensures RoundEffect(order, db, pulls) == MergeAll(db, BatchesOf(order, db, pulls))
  {
    hide Rivals, Protocol.Skips, Merge, MergeAll;
    if pulls == [] {
      NothingMerged(db);
    } else {
      var init, last := pulls[..|pulls| - 1], pulls[|pulls| - 1];
      assert StatusesOf(init) == StatusesOf(pulls)[..|init|];
      RoundIsMergeAll(order, db, init);
      forall q | q in init ensures !Rivals(db, q.status, last.status) {
        var k :| 0 <= k < |init| && init[k] == q;
        assert !Rivals(db, StatusesOf(pulls)[k], StatusesOf(pulls)[|init|]);
      }
      NoRivalMovesWatermark(order, db, init, last);
      if BatchOf(order, db, last) != [] {
        MergeAllAppend(db, BatchesOf(order, db, init), BatchOf(order, db, last)[0]);
        assert BatchOf(order, db, last) == [BatchOf(order, db, last)[0]];
      } else {
        assert BatchesOf(order, db, pulls) == BatchesOf(order, db, init);
      }
    }
  }

  lemma NothingMerged(db: Db)
    ensures MergeAll(db, []) == db
  {
  }

  /** Whatever the peers answer, two rounds of the same pulls without rivals leave
      the same database. */
  lemma RoundOrderFree(order: Order, db: Db, pulls1: seq<Pull>, pulls2: seq<Pull>)
    requires Alone(pulls1) && Alone(pulls2)
    requires NoRivals(db, StatusesOf(pulls1)) && NoRivals(db, StatusesOf(pulls2))
    requires forall p :: p in pulls1 <==> p in pulls2
    ensures RoundEffect(order, db, pulls1) == RoundEffect(order, db, pulls2)
  {
    RoundIsMergeAll(order, db, pulls1);
    RoundIsMergeAll(order, db, pulls2);
    BatchesMembers(order, db, pulls1);
    BatchesMembers(order, db, pulls2);
    MergeHistoryOrderFree(db, BatchesOf(order, db, pulls1), BatchesOf(order, db, pulls2));
  }

  // ----------------------------------------------- rivals make order matter

  /** A pull that leaves `db` as it is. */
  predicate Idle(db: Db, p: Pull) {
    p.before == [] && p.during == [] && (!Commits(p) || Protocol.Skips(db, StatusIn(p.status)))
  }

  lemma {:induction false} IdleTail(order: Order, db: Db, pulls: seq<Pull>, m: nat)
    requires m <= |pulls|
    requires forall k :: m <= k < |pulls| ==> Idle(RoundEffect(order, db, pulls[..m]), pulls[k])
    ensures RoundEffect(order, db, pulls) == RoundEffect(order, db, pulls[..m])
    decreases |pulls|
  {
    if m == |pulls| {
      assert pulls[..m] == pulls;
    } else {
      var init := pulls[..|pulls| - 1];
      assert init[..m] == pulls[..m];
      assert forall k :: m <= k < |init| ==> init[k] == pulls[k];
      IdleTail(order, db, init, m);
    }
  }

  /** A round in which one pull merges and all others are idle. */
  lemma OnePullActs(order: Order, db: Db, pulls: seq<Pull>, i: nat)
    requires i < |pulls| && pulls[i].before == [] && pulls[i].during == []
    requires Commits(pulls[i]) && !Protocol.Skips(db, StatusIn(pulls[i].status))
    requires forall k :: 0 <= k < i ==> Idle(db, pulls[k])
    requires var after := Merge(db, pulls[i].status.siteId, RowsIn(order, pulls[i]));
      forall k :: i < k < |pulls| ==> Idle(after, pulls[k])
    ensures RoundEffect(order, db, pulls) == Merge(db, pulls[i].status.siteId, RowsIn(order, pulls[i]))
  {
    hide Idle, Merge, RowsIn;
    assert RoundEffect(order, db, pulls[..i]) == db by {
      assert RoundEffect(order, db, pulls[..i][..0]) == db;
      IdleTail(order, db, pulls[..i], 0);
    }
    RoundOneMore(order, db, pulls[..i], pulls[i]);
    assert pulls[..i] + [pulls[i]] == pulls[..i + 1];
    IdleTail(order, db, pulls, i + 1);
  }

  /** A pull answered with one row for cell `c`, stamped `version`. */
  function OneRowPull(status: NodeStatus, c: Cell, version: i64): Pull {
    var change := Change(c.table, c.pk, c.cid, Null, 0, version, 0, 0);
    Pull(status, true, Ok(ChangesResponse(status.siteId, [change])), NoFault, [], [])
  }

  lemma OneRowMerged(order: Order, db: Db, status: NodeStatus, c: Cell, version: i64)
    requires c !in db.cells
    ensures var p := OneRowPull(status, c, version);
      var after := Merge(db, status.siteId, RowsIn(order, p));
      && Commits(p) && after.cells.Keys == db.cells.Keys + {c}
      && Tracked(after, status.siteId) >= version
  {
    var rows := RowsIn(order, OneRowPull(status, c, version));
    var row := rows[0];
    assert rows == [row] && row.cell == c && row.version == version;
    assert rows[..0] == [];
    assert MergeRows(db.cells, []) == db.cells && MaxVersion([]) == 0;
    assert MergeRows(db.cells, rows) == db.cells[c := Remote(row.rank)];
  }

  /** A round by `statuses` in which only pulls `i` and `j` get an answer. */
  function TwoAnswered(statuses: seq<NodeStatus>, i: nat, j: nat, p: Pull, q: Pull): (pulls: seq<Pull>)
    ensures |pulls| == |statuses|
  {
    seq(|statuses|, k requires 0 <= k < |statuses| =>
      if k == i then p else if k == j then q else Pull(statuses[k], true, Err(Network), NoFault, [], []))
  }

  /** Of two rival pulls the first to come is merged and the other one skips. */
  lemma FirstRivalWins(
      order: Order, db: Db, statuses: seq<NodeStatus>, i: nat, j: nat, p: Pull, q: Pull, c: Cell, version: i64)
    requires i < j < |statuses| && c !in db.cells && p == OneRowPull(p.status, c, version)
    requires Rivals(db, p.status, q.status) && q.before == [] && q.during == [] && q.status.dbVersion <= version
    ensures RoundEffect(order, db, TwoAnswered(statuses, i, j, p, q)).cells.Keys == db.cells.Keys + {c}
  {
    OneRowMerged(order, db, p.status, c, version);
    OnePullActs(order, db, TwoAnswered(statuses, i, j, p, q), i);
  }

  lemma SwapIsShuffle<T>(s1: seq<T>, s2: seq<T>, i: nat, j: nat)
    requires i < j < |s1| && s2 == s1[i := s1[j]][j := s1[i]]
    ensures multiset(s1) == multiset(s2)
  {
  }

  lemma RivalsMatter(order: Order, db: Db, statuses: seq<NodeStatus>, i: nat, j: nat, c1: Cell, c2: Cell)
    returns (pulls1: seq<Pull>, pulls2: seq<Pull>)
    requires i < j < |statuses| && Rivals(db, statuses[i], statuses[j])
    requires c1 != c2 && c1 !in db.cells && c2 !in db.cells
    ensures Alone(pulls1) && StatusesOf(pulls1) == statuses && multiset(pulls1) == multiset(pulls2)
    ensures RoundEffect(order, db, pulls1) != RoundEffect(order, db, pulls2)
  {
    hide RoundEffect, Protocol.Skips;
    var v1, v2 := statuses[i].dbVersion, statuses[j].dbVersion;
    var version := if v1 > v2 then v1 else v2;
    var p, q := OneRowPull(statuses[i], c1, version), OneRowPull(statuses[j], c2, version);
    pulls1, pulls2 := TwoAnswered(statuses, i, j, p, q), TwoAnswered(statuses, i, j, q, p);
    FirstRivalWins(order, db, statuses, i, j, p, q, c1, version);
    FirstRivalWins(order, db, statuses, i, j, q, p, c2, version);
    SwapIsShuffle(pulls1, pulls2, i, j);
    assert c1 in db.cells.Keys + {c1} && c1 !in db.cells.Keys + {c2};
  }

  /** The puller walks a hash map, so the order of a round is arbitrary. With these
      statuses, the database a round leaves never depends on it, whatever the peers
      answer and whichever calls fail. */
  ghost predicate OrderFree(order: Order, db: Db, statuses: seq<NodeStatus>) {
    forall pulls1, pulls2 ::
      Alone(pulls1) && StatusesOf(pulls1) == statuses && multiset(pulls1) == multiset(pulls2) ==>
        RoundEffect(order, db, pulls1) == RoundEffect(order, db, pulls2)
  }

  /** Two members of a sequence, with multiplicity, have two places in it. */
  lemma PairAt<T>(s: seq<T>, a: T, b: T) returns (i: nat, j: nat)
    requires multiset{a, b} <= multiset(s)
    ensures i < |s| && j < |s| && i != j && s[i] == a && s[j] == b
  {
    assert a in multiset{a, b};
    i :| 0 <= i < |s| && s[i] == a;
    WithoutOne(s, i);
    var rest := s[..i] + s[i + 1..];
    assert multiset{a, b} == multiset{b} + multiset{a};
    assert b in multiset{b} && b in rest;
    var k :| 0 <= k < |rest| && rest[k] == b;
    j := if k < i then k else k + 1;
  }

  lemma WithoutOne<T>(s: seq<T>, i: nat)
    requires i < |s|
    ensures multiset(s) == multiset(s[..i] + s[i + 1..]) + multiset{s[i]}
  {
    assert s == s[..i] + [s[i]] + s[i + 1..];
  }

  lemma SameMembers(pulls1: seq<Pull>, pulls2: seq<Pull>)
    requires multiset(pulls1) == multiset(pulls2) && Alone(pulls1)
    ensures Alone(pulls2) && forall p :: p in pulls1 <==> p in pulls2
  {
    assert forall p: Pull :: (p in pulls1 <==> p in multiset(pulls1)) && (p in pulls2 <==> p in multiset(pulls2));
    forall i | 0 <= i < |pulls2| ensures pulls2[i].before == [] && pulls2[i].during == [] {
      assert pulls2[i] in pulls1;
    }
  }

  lemma NoRivalsInAnyOrder(db: Db, pulls1: seq<Pull>, pulls2: seq<Pull>)
    requires NoRivals(db, StatusesOf(pulls1)) && multiset(pulls1) == multiset(pulls2)
    ensures NoRivals(db, StatusesOf(pulls2))
  {
    forall i, j | 0 <= i < j < |pulls2| ensures !Rivals(db, pulls2[i].status, pulls2[j].status) {
      var p, q := pulls2[i], pulls2[j];
      assert pulls2 == pulls2[..i] + [p] + pulls2[i + 1..j] + [q] + pulls2[j + 1..];
      assert multiset{p, q} <= multiset(pulls2);
      var k, l := PairAt(pulls1, p, q);
      assert !Rivals(db, StatusesOf(pulls1)[if k < l then k else l], StatusesOf(pulls1)[if k < l then l else k]);
    }
  }

  /** The exact condition, to be read off before the round begins: no two names
      stand for one database that both their statuses say is ahead. The two cells
      are any that the puller does not hold. */
  lemma RoundOrderFreeIff(order: Order, db: Db, statuses: seq<NodeStatus>, c1: Cell, c2: Cell)
    requires c1 != c2 && c1 !in db.cells && c2 !in db.cells
    ensures OrderFree(order, db, statuses) <==> NoRivals(db, statuses)
  {
    if NoRivals(db, statuses) {
      forall pulls1, pulls2 |
        Alone(pulls1) && StatusesOf(pulls1) == statuses && multiset(pulls1) == multiset(pulls2)
        ensures RoundEffect(order, db, pulls1) == RoundEffect(order, db, pulls2)
      {
        SameMembers(pulls1, pulls2);
        NoRivalsInAnyOrder(db, pulls1, pulls2);
        RoundOrderFree(order, db, pulls1, pulls2);
      }
    } else {
      var i, j :| 0 <= i < j < |statuses| && Rivals(db, statuses[i], statuses[j]);
      var pulls1, pulls2 := RivalsMatter(order, db, statuses, i, j, c1, c2);
    }
  }

  // -------------------------------- no order: a database under several names

  /** Every pull of the round that is neither skipped nor fails is answered, when
      it comes, by the database it is about. */
  ghost predicate AnsweredBy(order: Order, db: Db, pulls: seq<Pull>, peers: map<SiteId, Db>) {
    pulls == [] ||
    var now, p := RoundEffect(order, db, pulls[..|pulls| - 1]), pulls[|pulls| - 1];
    && AnsweredBy(order, db, pulls[..|pulls| - 1], peers)
    && p.status.siteId in peers
    && (Protocol.Skips(now, StatusIn(p.status)) || !Commits(p)
        || Protocol.IsScan(RowsIn(order, p), peers[p.status.siteId].cells, Tracked(now, p.status.siteId)))
  }

  /** Each of `peers` is a database under its own site id, of which `db` has a
      sound watermark, as in every reachable state. */
  ghost predicate SoundPeers(db: Db, peers: map<SiteId, Db>) {
    && WellFormed(db)
    && forall site :: site in peers ==> peers[site].site == site && WellFormed(peers[site]) && Sound(db, peers[site])
  }

  /** It is so for the databases of a system, in every reachable state and for every
      node. */
  lemma ReachableSoundPeers(r: Protocol.Run, i: nat, a: Protocol.NodeId, peers: map<SiteId, Db>)
    requires r.Valid() && i < |r.states| && a in r.states[i].nodes
    requires forall site :: site in peers ==>
      peers[site].site == site && exists n :: n in r.states[i].nodes && peers[site] == r.states[i].nodes[n].db
    ensures SoundPeers(r.states[i].nodes[a].db, peers)
  {
    ReachableInv(r, i);
    forall site | site in peers ensures WellFormed(peers[site]) && Sound(r.states[i].nodes[a].db, peers[site]) {
      var n :| n in r.states[i].nodes && peers[site] == r.states[i].nodes[n].db;
      assert Sound(r.states[i].nodes[a].db, r.states[i].nodes[n].db);
    }
  }

  /** What `changes` gives is such an answer: a round stays answered when the next
      pull skips, fails, or gets what its peer's `changes` gives for its watermark. */
  lemma AnsweredOneMore(
      order: Order, db: Db, pulls: seq<Pull>, p: Pull, peers: map<SiteId, Db>,
      before: Db, between: seq<Activity>)
    requires AnsweredBy(order, db, pulls, peers) && p.status.siteId in peers
    requires var now := RoundEffect(order, db, pulls);
      || Protocol.Skips(now, StatusIn(p.status)) || !Commits(p)
      || ChangesGive(order, before, between, peers[p.status.siteId],
           Tracked(now, p.status.siteId), p.answer.value.changes)
    ensures AnsweredBy(order, db, pulls + [p], peers)
  {
    assert (pulls + [p])[..|pulls|] == pulls;
    var since := Tracked(RoundEffect(order, db, pulls), p.status.siteId);
    EarlyReturnAgrees(before.cells, since);
  }

  /** All that `peer` holds, as one response. */
  ghost function FullBatch(peer: Db): Batch {
    Batch(peer.site, Listed(LocalAbove(peer.cells, 0)))
  }

  /** A full copy for every pull that succeeds and is ahead when the round begins. */
  ghost function FullBatches(db: Db, pulls: seq<Pull>, peers: map<SiteId, Db>): seq<Batch>
    requires forall i :: 0 <= i < |pulls| ==> pulls[i].status.siteId in peers
  {
    if pulls == [] then []
    else
      var p := pulls[|pulls| - 1];
      FullBatches(db, pulls[..|pulls| - 1], peers) +
        if Protocol.Skips(db, StatusIn(p.status)) || !Commits(p) then [] else [FullBatch(peers[p.status.siteId])]
  }

  lemma FullCopyKeepsSound(a: Db, b: Db, c: Db)
    requires WellFormed(a) && WellFormed(b) && WellFormed(c) && Sound(a, b) && Sound(a, c)
    requires b.site == c.site ==> b == c
    ensures var f := FullBatch(b);
      WellFormed(Merge(a, f.site, f.rows)) && Sound(Merge(a, f.site, f.rows), c)
  {
    var f := FullBatch(b);
    MergeMoves(a, f.site, f.rows);
    MaxVersionIsMax(f.rows);
    if b.site == c.site {
      forall row | row in f.rows ensures row.version <= b.clock {
        assert row in LocalAbove(b.cells, 0);
      }
      forall x | HoldsLocal(b.cells, x) ensures Row(x, b.cells[x].rank, b.cells[x].version) in f.rows {
        assert Row(x, b.cells[x].rank, b.cells[x].version) in LocalAbove(b.cells, 0);
      }
    }
  }

  lemma DeltaIsFull(a: Db, b: Db, delta: seq<Row>)
    requires WellFormed(a) && WellFormed(b) && Sound(a, b)
    requires Protocol.IsScan(delta, b.cells, Tracked(a, b.site))
    ensures Merge(a, b.site, delta) == Merge(a, b.site, FullBatch(b).rows)
  {
    Safety.DeltaIsFullCopy(a, b, Tracked(a, b.site), delta, FullBatch(b).rows);
  }

  lemma CopiedAgain(db: Db, batches: seq<Batch>, b: Batch)
    requires b in batches
    ensures MergeAll(db, batches + [b]) == MergeAll(db, batches)
  {
    MergeHistoryOrderFree(db, batches + [b], batches);
  }

  lemma {:induction false} FullBatchesMembers(db: Db, pulls: seq<Pull>, peers: map<SiteId, Db>)
    requires forall i :: 0 <= i < |pulls| ==> pulls[i].status.siteId in peers
    ensures forall b :: b in FullBatches(db, pulls, peers) <==>
      exists p :: p in pulls && !Protocol.Skips(db, StatusIn(p.status)) && Commits(p)
        && b == FullBatch(peers[p.status.siteId])
  {
    if pulls == [] {
    } else {
      var init, last := pulls[..|pulls| - 1], pulls[|pulls| - 1];
      FullBatchesMembers(db, init, peers);
      assert pulls == init + [last];
      assert forall p :: p in pulls <==> p in init || p == last;
    }
  }

  lemma {:induction false} AnsweredSites(order: Order, db: Db, pulls: seq<Pull>, peers: map<SiteId, Db>)
    requires AnsweredBy(order, db, pulls, peers)
    ensures forall i :: 0 <= i < |pulls| ==> pulls[i].status.siteId in peers
  {
    if pulls == [] {
    } else {
      AnsweredSites(order, db, pulls[..|pulls| - 1], peers);
      assert forall i :: 0 <= i < |pulls| - 1 ==> pulls[..|pulls| - 1][i] == pulls[i];
    }
  }

  /** A round of answered pulls is the full copy of every database that was ahead
      of its watermark when the round began and for which some pull succeeds. */
  lemma {:induction false} RoundIsFullCopies(order: Order, db: Db, pulls: seq<Pull>, peers: map<SiteId, Db>)
    requires Alone(pulls) && AnsweredBy(order, db, pulls, peers) && SoundPeers(db, peers)
    ensures forall i :: 0 <= i < |pulls| ==> pulls[i].status.siteId in peers
    ensures RoundEffect(order, db, pulls) == MergeAll(db, FullBatches(db, pulls, peers))
    ensures SoundPeers(RoundEffect(order, db, pulls), peers)
  {
    hide PullEffect, Merge, Sound, WellFormed, FullBatch, RowsIn, Commits, Strikes;
    AnsweredSites(order, db, pulls, peers);
    if pulls == [] {
    } else {
      var init, p := pulls[..|pulls| - 1], pulls[|pulls| - 1];
      RoundIsFullCopies(order, db, init, peers);
      OneMorePull(order, db, init, p, peers);
      assert pulls == init + [p];
    }
  }

  lemma OneMorePull(order: Order, db: Db, init: seq<Pull>, p: Pull, peers: map<SiteId, Db>)
    requires forall i :: 0 <= i < |init| ==> init[i].status.siteId in peers
    requires p.status.siteId in peers && p.before == [] && p.during == [] && SoundPeers(db, peers)
    requires var now := RoundEffect(order, db, init);
      && now == MergeAll(db, FullBatches(db, init, peers)) && SoundPeers(now, peers)
      && (Protocol.Skips(now, StatusIn(p.status)) || !Commits(p)
          || Protocol.IsScan(RowsIn(order, p), peers[p.status.siteId].cells, Tracked(now, p.status.siteId)))
    ensures RoundEffect(order, db, init + [p]) == MergeAll(db, FullBatches(db, init + [p], peers))
    ensures SoundPeers(RoundEffect(order, db, init + [p]), peers)
  {
    hide RoundEffect, MergeAll, Merge, WellFormed, Sound, FullBatch, RowsIn;
    var now, site := RoundEffect(order, db, init), p.status.siteId;
    var batches, full := FullBatches(db, init, peers), FullBatch(peers[p.status.siteId]);
    FullBatchIsNamed(peers[site]);
    RoundOneMore(order, db, init, p);
    assert (init + [p])[..|init|] == init;
    if Protocol.Skips(db, StatusIn(p.status)) || !Commits(p) {
      TrackedAfter(db, batches, site);
      assert FullBatches(db, init + [p], peers) == batches;
    } else if Protocol.Skips(now, StatusIn(p.status)) {
      TrackedAfter(db, batches, site);
      CopiedBefore(db, init, peers, site);
      CopiedAgain(db, batches, full);
    } else {
      DeltaIsFull(now, peers[site], RowsIn(order, p));
      MergeAllAppend(db, batches, full);
      forall other | other in peers
        ensures WellFormed(Merge(now, site, full.rows)) && Sound(Merge(now, site, full.rows), peers[other])
      {
        FullCopyKeepsSound(now, peers[site], peers[other]);
      }
    }
  }

  lemma FullBatchIsNamed(peer: Db)
    ensures FullBatch(peer).site == peer.site
  {
  }

  lemma CopiedBefore(db: Db, pulls: seq<Pull>, peers: map<SiteId, Db>, site: SiteId)
    requires forall i :: 0 <= i < |pulls| ==> pulls[i].status.siteId in peers
    requires site in peers && forall other :: other in peers ==> peers[other].site == other
    requires exists b :: b in FullBatches(db, pulls, peers) && b.site == site
    ensures FullBatch(peers[site]) in FullBatches(db, pulls, peers)
  {
    FullBatchesMembers(db, pulls, peers);
  }

  /** A database may be known under several names, with statuses of different
      age. Two rounds with the same statuses and the same failures, in any order
      and with any repetition, each other pull answered by the database it is about
      when it comes, leave the same database. */
  lemma AnsweredRoundOrderFree(order: Order, db: Db, pulls1: seq<Pull>, pulls2: seq<Pull>, peers: map<SiteId, Db>)
    requires Alone(pulls1) && Alone(pulls2) && SoundPeers(db, peers)
    requires AnsweredBy(order, db, pulls1, peers) && AnsweredBy(order, db, pulls2, peers)
    requires forall p :: p in pulls1 ==>
      exists q :: q in pulls2 && q.status == p.status && Commits(q) == Commits(p)
    requires forall q :: q in pulls2 ==>
      exists p :: p in pulls1 && p.status == q.status && Commits(p) == Commits(q)
    ensures RoundEffect(order, db, pulls1) == RoundEffect(order, db, pulls2)
  {
    RoundIsFullCopies(order, db, pulls1, peers);
    RoundIsFullCopies(order, db, pulls2, peers);
    FullBatchesMembers(db, pulls1, peers);
    FullBatchesMembers(db, pulls2, peers);
    MergeHistoryOrderFree(db, FullBatches(db, pulls1, peers), FullBatches(db, pulls2, peers));
  }
}
