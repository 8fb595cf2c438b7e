/** What the watermark invariant gives a user of the protocol, in every run. */
module Safety {
  import opened Basics
  import opened Replica
  import opened Protocol
  import opened Watermarks
  import Exposure

  /** Watermark soundness, spelled out: under concurrent pulls, delayed or
      repeated responses, commits between a responder's two reads, and database
      replacement, a row a peer still holds as local with a version up to the
      watermark is never missing from the puller, nor better than its copy. */
  lemma WatermarkSoundness(r: Run, i: nat, a: NodeId, b: NodeId, c: Cell)
    requires r.Valid() && i < |r.states|
    requires a in r.states[i].nodes && b in r.states[i].nodes
    requires HoldsLocal(r.states[i].nodes[b].db.cells, c)
    requires r.states[i].nodes[b].db.cells[c].version <= Tracked(r.states[i].nodes[a].db, r.states[i].nodes[b].db.site)
    ensures Dominates(r.states[i].nodes[a].db.cells, c, r.states[i].nodes[b].db.cells[c].rank)
  {
    ReachableInv(r, i);
    assert Sound(r.states[i].nodes[a].db, r.states[i].nodes[b].db);
  }

  // ------------------------------------------------ delta pull, full copy

  /** Merging only what is above the watermark leaves the very database that
      merging the peer's whole local change set would. */
  lemma DeltaPullRefinesFullCopy(r: Run, i: nat, a: NodeId, b: NodeId, delta: seq<Row>, full: seq<Row>)
    requires r.Valid() && i < |r.states|
    requires a in r.states[i].nodes && b in r.states[i].nodes
    requires IsScan(delta, r.states[i].nodes[b].db.cells,
               Tracked(r.states[i].nodes[a].db, r.states[i].nodes[b].db.site))
    requires IsScan(full, r.states[i].nodes[b].db.cells, 0)
    ensures var s := r.states[i];
      Merge(s.nodes[a].db, s.nodes[b].db.site, delta) == Merge(s.nodes[a].db, s.nodes[b].db.site, full)
  {
    ReachableInv(r, i);
    var s := r.states[i];
    assert Sound(s.nodes[a].db, s.nodes[b].db);
    DeltaIsFullCopy(s.nodes[a].db, s.nodes[b].db, Tracked(s.nodes[a].db, s.nodes[b].db.site), delta, full);
  }

  /** What `a` may leave out of a copy of `b` without a difference: anything up to
      a version it has covered and not above its watermark. */
  lemma DeltaIsFullCopy(a: Db, b: Db, since: int, delta: seq<Row>, full: seq<Row>)
    requires WellFormed(a) && WellFormed(b) && Covered(a, b, since) && 0 <= since <= Tracked(a, b.site)
    requires IsScan(delta, b.cells, since) && IsScan(full, b.cells, 0)
    ensures Merge(a, b.site, delta) == Merge(a, b.site, full)
  {
    forall row | row in full
      ensures row.version > 0 && (row in delta || (Dominates(a.cells, row.cell, row.rank) && row.version <= since))
    {
      assert row in LocalAbove(b.cells, 0);
      assert row.version > since ==> row in LocalAbove(b.cells, since);
    }
    forall row | row in delta ensures row in full {
      assert row in LocalAbove(b.cells, since);
      assert row in LocalAbove(b.cells, 0);
    }
    DeltaCells(a.cells, delta, full);
    DeltaVersion(a, b.site, since, delta, full);
  }

  /** Rows that are dominated already may be left out. */
  lemma DeltaCells(cells: Cells, delta: seq<Row>, full: seq<Row>)
    requires forall row :: row in delta ==> row in full
    requires forall row :: row in full ==> row in delta || Dominates(cells, row.cell, row.rank)
    ensures MergeRows(cells, delta) == MergeRows(cells, full)
  {
    MergeIsJoin(cells, delta);
    MergeIsJoin(cells, full);
    var m := MergeRows(cells, delta);
    assert IsJoin(cells, full, m) by {
      forall c | c in m ensures Explained(cells, full, c, m[c]) {
        assert Explained(cells, delta, c, m[c]);
      }
      forall row | row in full ensures Dominates(m, row.cell, row.rank) {
      }
    }
    JoinIsUnique(cells, full, full, m, MergeRows(cells, full));
  }

  lemma DeltaVersion(a: Db, site: SiteId, since: int, delta: seq<Row>, full: seq<Row>)
    requires WellFormed(a) && since <= Tracked(a, site)
    requires forall row :: row in delta ==> row in full
    requires forall row :: row in full ==> row.version > 0 && (row in delta || row.version <= since)
    ensures Upsert(a.tracked, site, MaxVersion(delta)) == Upsert(a.tracked, site, MaxVersion(full))
  {
    MaxVersionIsMax(delta);
    MaxVersionIsMax(full);
  }

  // ------------------------------------------------------- skip soundness

  /** The database behind node `b` in state `i`. */
  ghost function DbAt(r: Run, i: nat, b: NodeId): Db
    requires i < |r.states| && b in r.states[i].nodes
  {
    r.states[i].nodes[b].db
  }

  lemma {:induction false} NodesAreFixed(r: Run, i: nat, j: nat)
    requires r.Valid() && i <= j < |r.states|
    ensures r.states[i].nodes.Keys == r.states[j].nodes.Keys
  {
    if i == j {
    } else {
      NodesAreFixed(r, i, j - 1);
      assert r.states[j] == Apply(r.states[j - 1], r.labels[j - 1]);
    }
  }

  /** Step `i` is the announcement of `status` by `b`. */
  ghost predicate Announced(r: Run, i: nat, b: NodeId, status: Status)
    requires r.Valid()
  {
    i < |r.labels| && r.labels[i] == Announce(b) && b in r.states[i].nodes && status == StatusOf(DbAt(r, i, b))
  }

  /** `status` is what `b` announced at some step before `j`. */
  ghost predicate WasAnnounced(r: Run, j: nat, b: NodeId, status: Status)
    requires r.Valid()
  {
    exists i :: 0 <= i < j && Announced(r, i, b, status)
  }

  lemma WasAnnouncedLater(r: Run, j: nat, k: nat, b: NodeId, status: Status)
    requires r.Valid() && j <= k && WasAnnounced(r, j, b, status)
    ensures WasAnnounced(r, k, b, status)
  {
    var i :| 0 <= i < j && Announced(r, i, b, status);
    assert 0 <= i < k;
  }

  /** Where a status in the DHT comes from in one step. */
  lemma DhtStep(s: State, l: Label, b: NodeId)
    requires Enabled(s, l) && b in Apply(s, l).dht
    ensures (b in s.dht && Apply(s, l).dht[b] == s.dht[b])
         || (l == Announce(b) && Apply(s, l).dht[b] == StatusOf(s.nodes[b].db))
  {
  }

  /** Where a status read by `a` comes from in one step. */
  lemma SeenStep(s: State, l: Label, a: NodeId, b: NodeId)
    requires Enabled(s, l) && a in Apply(s, l).nodes && b in Apply(s, l).nodes[a].seen
    ensures a in s.nodes
    ensures (b in s.nodes[a].seen && Apply(s, l).nodes[a].seen[b] == s.nodes[a].seen[b])
         || (l == Refresh(a, b) && Apply(s, l).nodes[a].seen[b] == s.dht[b])
  {
  }

  /** Every status in the DHT was computed by its node when it announced. */
  lemma {:induction false} DhtWasAnnounced(r: Run, j: nat, b: NodeId)
    requires r.Valid() && j < |r.states| && b in r.states[j].dht
    ensures WasAnnounced(r, j, b, r.states[j].dht[b])
  {
    if j == 0 {
    } else {
      DhtStep(r.states[j - 1], r.labels[j - 1], b);
      if r.labels[j - 1] == Announce(b) {
        assert Announced(r, j - 1, b, r.states[j].dht[b]);
      } else {
        DhtWasAnnounced(r, j - 1, b);
        WasAnnouncedLater(r, j - 1, j, b, r.states[j].dht[b]);
      }
    }
  }

  /** So was every status a puller has read. */
  lemma {:induction false} SeenWasAnnounced(r: Run, j: nat, a: NodeId, b: NodeId)
    requires r.Valid() && j < |r.states| && a in r.states[j].nodes && b in r.states[j].nodes[a].seen
    ensures WasAnnounced(r, j, b, r.states[j].nodes[a].seen[b])
  {
    if j == 0 {
    } else {
      SeenStep(r.states[j - 1], r.labels[j - 1], a, b);
      if r.labels[j - 1] == Refresh(a, b) {
        DhtWasAnnounced(r, j - 1, b);
      } else {
        SeenWasAnnounced(r, j - 1, a, b);
      }
      WasAnnouncedLater(r, j - 1, j, b, r.states[j].nodes[a].seen[b]);
    }
  }

  /** When `pull_from` skips, take any announcement of the status it read, and
      there is one: whatever the peer held as local then and still holds unchanged
      is already dominated at the puller. */
  lemma SkipSoundness(r: Run, i: nat, j: nat, a: NodeId, b: NodeId)
    requires r.Valid() && i < j < |r.labels| && r.labels[j] == BeginPull(a, b)
    requires Skips(DbAt(r, j, a), r.states[j].nodes[a].seen[b])
    requires Announced(r, i, b, r.states[j].nodes[a].seen[b])
    ensures b in r.states[j].nodes
    ensures WasAnnounced(r, j, b, r.states[j].nodes[a].seen[b])
    ensures DbAt(r, j, b).site == DbAt(r, i, b).site ==>
      forall c :: HoldsLocal(DbAt(r, i, b).cells, c) && c in DbAt(r, j, b).cells
                  && DbAt(r, j, b).cells[c] == DbAt(r, i, b).cells[c]
        ==> Dominates(DbAt(r, j, a).cells, c, DbAt(r, j, b).cells[c].rank)
  {
    ReachableInv(r, j);
    assert Sound(DbAt(r, j, a), DbAt(r, j, b));
  }

  /** Some row of `rows` beats the local entry of cell `c`. */
  ghost predicate Beaten(cells: Cells, rows: seq<Row>, c: Cell) {
    exists row :: row in rows && row.cell == c && c in cells && row.rank > cells[c].rank
  }

  /** A merge leaves a cell local, and then as it was, unless some row beats it. */
  lemma LocalAfterMerge(cells: Cells, rows: seq<Row>, c: Cell)
    ensures HoldsLocal(MergeRows(cells, rows), c) <==> HoldsLocal(cells, c) && !Beaten(cells, rows, c)
    ensures HoldsLocal(MergeRows(cells, rows), c) ==> MergeRows(cells, rows)[c] == cells[c]
  {
    var merged := MergeRows(cells, rows);
    MergeIsJoin(cells, rows);
    assert c in merged ==> Explained(cells, rows, c, merged[c]);
    if HoldsLocal(cells, c) && Beaten(cells, rows, c) {
      var row :| row in rows && row.cell == c && row.rank > cells[c].rank;
      assert Dominates(merged, c, row.rank);
    }
    if HoldsLocal(cells, c) && !Beaten(cells, rows, c) {
      assert Dominates(merged, c, cells[c].rank);
    }
  }

  /** Announced versions can go down: merging never raises the version a node
      announces, and lowers it exactly when every cell stamped with that version
      is lost to a better remote row. */
  lemma StatusDropsIff(db: Db, site: SiteId, rows: seq<Row>)
    requires WellFormed(db)
    ensures StatusVersion(Merge(db, site, rows).cells) <= StatusVersion(db.cells)
    ensures StatusVersion(Merge(db, site, rows).cells) < StatusVersion(db.cells) <==>
      && StatusVersion(db.cells) > 0
      && forall c :: HoldsLocal(db.cells, c) && db.cells[c].version == StatusVersion(db.cells) ==>
           Beaten(db.cells, rows, c)
  {
    var merged := MergeRows(db.cells, rows);
    var before, after := TopVersion(db.cells, db.cells.Keys), TopVersion(merged, merged.Keys);
    forall c
      ensures HoldsLocal(merged, c) <==> HoldsLocal(db.cells, c) && !Beaten(db.cells, rows, c)
      ensures HoldsLocal(merged, c) ==> merged[c] == db.cells[c]
    {
      LocalAfterMerge(db.cells, rows, c);
    }
    if after.Some? {
      var c :| c in merged.Keys && merged[c].Local? && merged[c].version == after.value;
      assert HoldsLocal(merged, c);
    }
    if before.Some? {
      var c :| c in db.cells.Keys && db.cells[c].Local? && db.cells[c].version == before.value;
      assert HoldsLocal(db.cells, c);
    }
  }

  // -------------------------------------------------- database replacement

  /** A site that has been replaced never comes back. */
  lemma {:induction false} SitesAreNew(r: Run, i: nat, k: nat, b: NodeId, site: SiteId)
    requires r.Valid() && i < k < |r.states| && r.labels[i] == ReplaceDb(b, site)
    ensures r.states[i].used <= r.states[k].used
    ensures b in r.states[k].nodes && DbAt(r, k, b).site !in r.states[i].used
  {
    assert r.states[k] == Apply(r.states[k - 1], r.labels[k - 1]);
    if i == k - 1 {
    } else {
      SitesAreNew(r, i, k - 1, b, site);
    }
  }

  lemma AnswersNameTheirDatabase(s: State, l: Label, p: Response)
    requires Enabled(s, l) && p in Apply(s, l).responses && p !in s.responses
    ensures p.req.peer in s.nodes && p.site == s.nodes[p.req.peer].db.site
  {
  }

  /** Answers given for `b` after its database was replaced carry a new site. */
  lemma {:induction false} LateAnswersCarryNewSite(r: Run, i: nat, k: nat, b: NodeId, site: SiteId)
    requires r.Valid() && i < k < |r.states| && r.labels[i] == ReplaceDb(b, site)
    ensures forall p :: p in r.states[k].responses && p !in r.states[i].responses && p.req.peer == b ==>
              p.site !in r.states[i].used
  {
    assert r.states[k] == Apply(r.states[k - 1], r.labels[k - 1]);
    if i == k - 1 {
    } else {
      LateAnswersCarryNewSite(r, i, k - 1, b, site);
      forall p | p in r.states[k].responses && p !in r.states[k - 1].responses && p.req.peer == b
        ensures p.site !in r.states[i].used
      {
        AnswersNameTheirDatabase(r.states[k - 1], r.labels[k - 1], p);
        SitesAreNew(r, i, k - 1, b, site);
      }
    }
  }

  /** A pull about the announced site `q.target`, answered after that database
      was replaced, is refused by the site check: nothing at all changes. */
  lemma ReplacedPeerIsRefused(r: Run, i: nat, d: nat, b: NodeId, site: SiteId, p: Response)
    requires r.Valid() && i < d < |r.labels|
    requires r.labels[i] == ReplaceDb(b, site) && r.labels[d] == Deliver(p)
    requires p.req.peer == b && b in r.states[i].nodes && p.req.target == DbAt(r, i, b).site
    requires p !in r.states[i].responses
    ensures p.site != p.req.target
    ensures r.states[d + 1] == r.states[d]
  {
    ReachableInv(r, i);
    LateAnswersCarryNewSite(r, i, d, b, site);
    assert Enabled(r.states[d], r.labels[d]);
  }

  /** Until a response of the new site is merged, `a` tracks nothing of it. */
  lemma {:induction false} NewSiteIsUntracked(r: Run, i: nat, k: nat, b: NodeId, site: SiteId, a: NodeId)
    requires r.Valid() && i < k < |r.states| && r.labels[i] == ReplaceDb(b, site)
    requires a in r.states[i].nodes
    requires forall d :: i < d < k && r.labels[d].Deliver? && r.labels[d].resp.site == site ==>
      r.labels[d].resp.req.puller != a
    ensures a in r.states[k].nodes && site !in DbAt(r, k, a).tracked
  {
    assert r.states[k] == Apply(r.states[k - 1], r.labels[k - 1]);
    if i < k - 1 {
      NewSiteIsUntracked(r, i, k - 1, b, site, a);
    } else {
      ReachableInv(r, i);
    }
  }

  /** The first pull of a new site asks for everything above version 0. */
  lemma NewSiteIsAskedFromZero(r: Run, i: nat, j: nat, b: NodeId, site: SiteId, a: NodeId)
    requires r.Valid() && i < j < |r.labels|
    requires r.labels[i] == ReplaceDb(b, site) && r.labels[j] == BeginPull(a, b)
    requires r.states[j].nodes[a].seen[b].site == site
    requires forall d :: i < d < j && r.labels[d].Deliver? && r.labels[d].resp.site == site ==>
      r.labels[d].resp.req.puller != a
    ensures RequestOf(r.states[j], a, b).target == site && RequestOf(r.states[j], a, b).since == 0
  {
    NodesAreFixed(r, i, j);
    NewSiteIsUntracked(r, i, j, b, site, a);
  }

  /** Step `k` gives answer `p` to request `q`: early and empty, or with the rows. */
  ghost predicate AnswersWith(r: Run, k: nat, q: Request, p: Response)
    requires r.Valid()
  {
    && k < |r.labels| && q.peer in r.states[k].nodes
    && (|| (&& r.labels[k].AnswerRows? && r.labels[k].scan.req == q
            && p == Response(q, r.labels[k].scan.site, r.labels[k].rows))
        || (&& r.labels[k] == AnswerStatus(q) && q.since >= StatusVersion(DbAt(r, k, q.peer).cells)
            && p == Response(q, DbAt(r, k, q.peer).site, [])))
  }

  /** An answer to a request from version 0 lists every row the database holds as
      local; an empty early answer means there is none. */
  lemma NoVersionIsSkipped(r: Run, k: nat, q: Request, p: Response)
    requires r.Valid() && AnswersWith(r, k, q, p) && q.since == 0
    ensures p.site == DbAt(r, k, q.peer).site
    ensures forall c :: HoldsLocal(DbAt(r, k, q.peer).cells, c) ==>
      Row(c, DbAt(r, k, q.peer).cells[c].rank, DbAt(r, k, q.peer).cells[c].version) in p.rows
  {
    ReachableInv(r, k);
    var db := DbAt(r, k, q.peer);
    assert WellFormed(db);
    assert Enabled(r.states[k], r.labels[k]);
    forall c | HoldsLocal(db.cells, c)
      ensures Row(c, db.cells[c].rank, db.cells[c].version) in LocalAbove(db.cells, 0)
    {
    }
  }

  /** The first pull of a new site starts from version 0, and its answer, whenever
      given and whenever delivered, leaves the puller with everything the new
      database held when it answered and a watermark past all of it. An answer
      that carries another site, because the database was replaced once more, is
      refused. */
  lemma NewSiteIsCopiedFromZero(
      r: Run, i: nat, j: nat, k: nat, d: nat, b: NodeId, site: SiteId, a: NodeId, p: Response)
    requires r.Valid() && i < j < k < d < |r.labels|
    requires r.labels[i] == ReplaceDb(b, site) && r.labels[j] == BeginPull(a, b)
    requires r.states[j].nodes[a].seen[b].site == site
    requires forall e :: i < e < j && r.labels[e].Deliver? && r.labels[e].resp.site == site ==>
      r.labels[e].resp.req.puller != a
    requires AnswersWith(r, k, RequestOf(r.states[j], a, b), p) && r.labels[d] == Deliver(p)
    ensures p.req.since == 0 && p.req.target == site
    ensures a in r.states[d + 1].nodes
    ensures DbAt(r, k, b).site == site ==>
      forall c :: HoldsLocal(DbAt(r, k, b).cells, c) ==>
        && Dominates(DbAt(r, d + 1, a).cells, c, DbAt(r, k, b).cells[c].rank)
        && DbAt(r, k, b).cells[c].version <= Tracked(DbAt(r, d + 1, a), site)
    ensures DbAt(r, k, b).site != site ==> r.states[d + 1] == r.states[d]
  {
    NewSiteIsAskedFromZero(r, i, j, b, site, a);
    NoVersionIsSkipped(r, k, p.req, p);
    assert Enabled(r.states[d], r.labels[d]);
    ReachableInv(r, d);
    MergeMoves(DbAt(r, d, a), p.site, p.rows);
    MaxVersionIsMax(p.rows);
  }

  // ------------------------------------------- a whole pull, spread in time

  lemma {:induction false} UsedGrows(r: Run, i: nat, j: nat)
    requires r.Valid() && i <= j < |r.states|
    ensures r.states[i].used <= r.states[j].used
  {
    if i == j {
    } else {
      UsedGrows(r, i, j - 1);
      assert r.states[j] == Apply(r.states[j - 1], r.labels[j - 1]);
    }
  }

  /** One step of a node that keeps its database only improves its copies. */
  lemma StepImproves(s: State, l: Label, n: NodeId)
    requires Inv(s) && Enabled(s, l) && n in s.nodes && Apply(s, l).nodes[n].db.site in s.used
    ensures s.nodes[n].db.site == Apply(s, l).nodes[n].db.site
    ensures OnlyBetter(s.nodes[n].db, Apply(s, l).nodes[n].db)
  {
    if Exposure.MovesNoDatabase(l) {
      Exposure.StillDatabases(s, l);
    } else if l.LocalTxn? {
      assert WellFormed(s.nodes[l.node].db);
      CommitMoves(s.nodes[l.node].db, l.version, l.writes);
    } else if l.Deliver? {
      assert WellFormed(s.nodes[l.resp.req.puller].db);
      MergeMoves(s.nodes[l.resp.req.puller].db, l.resp.site, l.resp.rows);
    } else {
      assert l.ReplaceDb? && l.node != n;
    }
  }

  /** A database that is behind a node again, or still, was there all along, and
      its copies only got better. */
  lemma {:induction false} SameDatabaseImproves(r: Run, i: nat, j: nat, n: NodeId)
    requires r.Valid() && i <= j < |r.states| && n in r.states[i].nodes && n in r.states[j].nodes
    requires DbAt(r, j, n).site in r.states[i].used
    ensures DbAt(r, i, n).site == DbAt(r, j, n).site && OnlyBetter(DbAt(r, i, n), DbAt(r, j, n))
  {
    if i == j {
    } else {
      NodesAreFixed(r, i, j - 1);
      UsedGrows(r, i, j - 1);
      ReachableInv(r, j - 1);
      hide Inv, Apply, Enabled;
      assert Enabled(r.states[j - 1], r.labels[j - 1]) && r.states[j] == Apply(r.states[j - 1], r.labels[j - 1]);
      StepImproves(r.states[j - 1], r.labels[j - 1], n);
      SameDatabaseImproves(r, i, j - 1, n);
    }
  }

  /** A delta pull as it really runs: asked at one moment, answered at a later one
      and delivered at a third, with commits, merges, other pulls and replacements
      in between. If it is not refused, it leaves the puller with the very database
      that a copy of all the responder held when it answered would leave. */
  lemma DelayedPullRefinesFullCopy(
      r: Run, j: nat, k: nat, d: nat, a: NodeId, b: NodeId, p: Response, full: seq<Row>)
    requires r.Valid() && j < k < d < |r.labels|
    requires r.labels[j] == BeginPull(a, b) && !Skips(DbAt(r, j, a), r.states[j].nodes[a].seen[b])
    requires AnswersWith(r, k, RequestOf(r.states[j], a, b), p) && r.labels[d] == Deliver(p)
    requires p.site == p.req.target && IsScan(full, DbAt(r, k, b).cells, 0)
    ensures a in r.states[d].nodes && a in r.states[d + 1].nodes
    ensures DbAt(r, d + 1, a) == Merge(DbAt(r, d, a), p.site, full)
  {
    assert Enabled(r.states[d], r.labels[d]) && r.states[d + 1] == Apply(r.states[d], r.labels[d]);
    NodesAreFixed(r, k, d);
    RequestIsKept(r, j, k, a, b);
    CoveredWhenAnswered(r, k, d, p.req, p);
    var now, peer := DbAt(r, d, a), DbAt(r, k, b);
    ReachableInv(r, k);
    ReachableInv(r, d);
    AnswerIsScan(r, k, p.req, p);
    DeltaIsFullCopy(now, peer, p.req.since, p.rows, full);
  }

  lemma {:induction false} RequestIsKept(r: Run, j: nat, k: nat, a: NodeId, b: NodeId)
    requires r.Valid() && j < k < |r.states|
    requires r.labels[j] == BeginPull(a, b) && !Skips(DbAt(r, j, a), r.states[j].nodes[a].seen[b])
    ensures RequestOf(r.states[j], a, b) in r.states[k].requests && RequestOf(r.states[j], a, b).since >= 0
  {
    assert r.states[k] == Apply(r.states[k - 1], r.labels[k - 1]);
    if k == j + 1 {
      ReachableInv(r, j);
      assert WellFormed(DbAt(r, j, a));
    } else {
      RequestIsKept(r, j, k - 1, a, b);
    }
  }

  /** An answer lists what its database holds above the version asked for. */
  lemma AnswerIsScan(r: Run, k: nat, q: Request, p: Response)
    requires r.Valid() && AnswersWith(r, k, q, p)
    ensures p.site == DbAt(r, k, q.peer).site && IsScan(p.rows, DbAt(r, k, q.peer).cells, q.since)
  {
    assert Enabled(r.states[k], r.labels[k]);
    var cells := DbAt(r, k, q.peer).cells;
    assert forall row :: row in LocalAbove(cells, q.since) ==>
      HoldsLocal(cells, row.cell) && q.since < row.version <= StatusVersion(cells);
  }

  /** What a request left out when it was sent is covered when its answer is
      delivered. */
  lemma CoveredWhenAnswered(r: Run, k: nat, d: nat, q: Request, p: Response)
    requires r.Valid() && AnswersWith(r, k, q, p) && k < d < |r.labels| && r.labels[d] == Deliver(p)
    requires p.req == q && q in r.states[k].requests && p.site == q.target
    ensures q.puller in r.states[d].nodes
    ensures Covered(DbAt(r, d, q.puller), DbAt(r, k, q.peer), q.since)
    ensures q.since <= Tracked(DbAt(r, d, q.puller), p.site)
  {
    assert Enabled(r.states[d], r.labels[d]);
    NodesAreFixed(r, k, d);
    ReachableInv(r, k);
    ReachableInv(r, d);
    SameDatabaseImproves(r, k, d, q.puller);
    AnswerIsScan(r, k, q, p);
    assert PullAlive(r.states[k], q);
    assert Sound(DbAt(r, k, q.puller), DbAt(r, k, q.peer));
  }

  // ------------------------------------------------ every delivery, at last

  /** Every request in the network was sent by a pull that did not skip. */
  lemma {:induction false} EveryRequestWasSent(r: Run, i: nat, q: Request) returns (j: nat)
    requires r.Valid() && i < |r.states| && q in r.states[i].requests
    ensures j < i && r.labels[j] == BeginPull(q.puller, q.peer)
    ensures q.puller in r.states[j].nodes && q.peer in r.states[j].nodes[q.puller].seen
    ensures !Skips(DbAt(r, j, q.puller), r.states[j].nodes[q.puller].seen[q.peer])
    ensures q == RequestOf(r.states[j], q.puller, q.peer)
    decreases i
  {
    var l := r.labels[i - 1];
    assert Enabled(r.states[i - 1], l) && r.states[i] == Apply(r.states[i - 1], l);
    if q in r.states[i - 1].requests {
      j := EveryRequestWasSent(r, i - 1, q);
    } else {
      j := i - 1;
    }
  }

  /** Every response in the network is the answer of its peer to its request, given
      at some step after the request was sent. */
  lemma {:induction false} EveryAnswerWasGiven(r: Run, i: nat, p: Response) returns (k: nat)
    requires r.Valid() && i < |r.states| && p in r.states[i].responses
    ensures k < i && AnswersWith(r, k, p.req, p) && p.req in r.states[k].requests
    decreases i
  {
    var l := r.labels[i - 1];
    assert Enabled(r.states[i - 1], l) && r.states[i] == Apply(r.states[i - 1], l);
    if p in r.states[i - 1].responses {
      k := EveryAnswerWasGiven(r, i - 1, p);
    } else {
      ReachableInv(r, i - 1);
      k := i - 1;
    }
  }

  /** In any run, whatever happened before: a delivery that is not refused leaves
      the puller with the database that a copy of all the responder held at some
      earlier moment, when it answered, would leave. */
  lemma EveryDeliveryRefinesFullCopy(r: Run, d: nat, p: Response) returns (k: nat)
    requires r.Valid() && d < |r.labels| && r.labels[d] == Deliver(p) && p.site == p.req.target
    ensures k < d && p.req.peer in r.states[k].nodes && DbAt(r, k, p.req.peer).site == p.site
    ensures p.req.puller in r.states[d].nodes && p.req.puller in r.states[d + 1].nodes
    ensures forall full :: IsScan(full, DbAt(r, k, p.req.peer).cells, 0) ==>
      DbAt(r, d + 1, p.req.puller) == Merge(DbAt(r, d, p.req.puller), p.site, full)
  {
    assert Enabled(r.states[d], r.labels[d]) && r.states[d + 1] == Apply(r.states[d], r.labels[d]);
    k := EveryAnswerWasGiven(r, d, p);
    var j := EveryRequestWasSent(r, k, p.req);
    AnswerIsScan(r, k, p.req, p);
    forall full | IsScan(full, DbAt(r, k, p.req.peer).cells, 0)
      ensures DbAt(r, d + 1, p.req.puller) == Merge(DbAt(r, d, p.req.puller), p.site, full)
    {
      DelayedPullRefinesFullCopy(r, j, k, d, p.req.puller, p.req.peer, p, full);
    }
  }
}
