/** A replicated database as the protocol sees it: which rank each cell holds,
    which cells are local, and how far each remote site has been tracked.

    What is assumed of cr-sqlite is here, and on stored rows in `Database`:
    `Insert` (a remote row wins only with a strictly greater rank, and then is no
    longer local) and `Commit`/`CanCommit` (a local commit stamps its cells with
    one version above every version stamped before and raises each cell's rank). */
module Replica {
  import opened Basics

  /** A position in the total order by which cr-sqlite resolves conflicts between
      (cl, col_version, val). That order is left open: any total order on a
      countable set is the order of some set of real numbers. */
  type Rank = real

  /** A cell's row: still attributed to this database (`site_id is null`), with
      the version that stamped it, or won from a remote site. */
  datatype Entry = Local(rank: Rank, version: int) | Remote(rank: Rank)

  type Cells = map<Cell, Entry>

  /** A row as it travels in a response. */
  datatype Row = Row(cell: Cell, rank: Rank, version: int)

  datatype Db = Db(site: SiteId, cells: Cells, clock: int, tracked: map<SiteId, int>)

  function FreshDb(site: SiteId): Db {
    Db(site, map[], 0, map[])
  }

  // ---------------------------------------------------------------- reading

  predicate HoldsLocal(cells: Cells, c: Cell) {
    c in cells && cells[c].Local?
  }

  /** The copy in `cells` is at least as good as rank `x`. */
  predicate Dominates(cells: Cells, c: Cell, x: Rank) {
    c in cells && cells[c].rank >= x
  }

  /** The rows `where db_version > since and site_id is null`. */
  function LocalAbove(cells: Cells, since: int): (rows: set<Row>) {
    set c | c in cells && cells[c].Local? && cells[c].version > since :: Row(c, cells[c].rank, cells[c].version)
  }

  /** Some listing of a set of rows. */
  ghost function Listed(rows: set<Row>): (list: seq<Row>)
    ensures forall row :: row in list <==> row in rows
  {
    if rows == {} then []
    else
      var row :| row in rows;
      Listed(rows - {row}) + [row]
  }

  /** The greatest version among the local rows of `keys`, if there is one. */
  ghost function TopVersion(cells: Cells, keys: set<Cell>): (top: Option<int>)
    requires keys <= cells.Keys
    ensures forall c :: c in keys && cells[c].Local? ==> top.Some? && cells[c].version <= top.value
    ensures top.Some? ==> exists c :: c in keys && cells[c].Local? && cells[c].version == top.value
  {
    if keys == {} then None
    else
      var c :| c in keys;
      var top := TopVersion(cells, keys - {c});
      if cells[c].Local? && (top.None? || cells[c].version > top.value) then Some(cells[c].version) else top
  }

  /** `coalesce((select max(db_version) ... where site_id is null), 0)` */
  ghost function StatusVersion(cells: Cells): (v: int) {
    match TopVersion(cells, cells.Keys)
    case Some(v) => v
    case None => 0
  }

  /** The watermark kept for `site`, 0 when there is no row for it. */
  function Tracked(db: Db, site: SiteId): int {
    if site in db.tracked then db.tracked[site] else 0
  }

  // ---------------------------------------------------------------- merging

  /** `insert into crsql_changes` of a remote row: the greater rank is kept, and
      the existing row on a tie. */
  function Insert(cells: Cells, row: Row): Cells {
    if Dominates(cells, row.cell, row.rank) then cells else cells[row.cell := Remote(row.rank)]
  }

  function MergeRows(cells: Cells, rows: seq<Row>): Cells {
    if rows == [] then cells
    else Insert(MergeRows(cells, rows[..|rows| - 1]), rows[|rows| - 1])
  }

  /** The version `merge` returns: the greatest of 0 and the row versions. */
  function MaxVersion(rows: seq<Row>): int {
    if rows == [] then 0
    else
      var m := MaxVersion(rows[..|rows| - 1]);
      var v := rows[|rows| - 1].version;
      if v > m then v else m
  }

  /** `on conflict do update set version = max(version, excluded.version)` */
  function Upsert(tracked: map<SiteId, int>, site: SiteId, version: int): map<SiteId, int> {
    tracked[site := if site in tracked && tracked[site] > version then tracked[site] else version]
  }

  /** One successful `merge`: rows and watermark move together. */
  function Merge(db: Db, site: SiteId, rows: seq<Row>): Db {
    db.(cells := MergeRows(db.cells, rows), tracked := Upsert(db.tracked, site, MaxVersion(rows)))
  }

  // ------------------------------------------------------------- committing

  predicate CanCommit(db: Db, version: int, writes: map<Cell, Rank>) {
    && version > db.clock
    && forall c :: c in writes && c in db.cells ==> writes[c] > db.cells[c].rank
  }

  /** One local transaction: every cell written gets the same new version. */
  function Commit(db: Db, version: int, writes: map<Cell, Rank>): Db {
    db.(clock := version,
        cells := map c | c in db.cells.Keys + writes.Keys ::
          if c in writes then Local(writes[c], version) else db.cells[c])
  }

  /** Local versions are positive and never above the last one stamped, and no
      watermark is negative. */
  predicate WellFormed(db: Db) {
    && db.clock >= 0
    && (forall site :: site in db.tracked ==> db.tracked[site] >= 0)
    && forall c :: c in db.cells && db.cells[c].Local? ==> 0 < db.cells[c].version <= db.clock
  }

  // ------------------------------------------------------- laws of `merge`

  /** Some row of `rows` carries rank `x` for cell `c`. */
  ghost predicate Carries(rows: seq<Row>, c: Cell, x: Rank) {
    exists row :: row in rows && row.cell == c && row.rank == x
  }

  /** What a merge leaves in each cell, without reference to the order of rows:
      the old entry when no row beats it, otherwise the best row, as a remote. */
  ghost predicate IsJoin(cells: Cells, rows: seq<Row>, merged: Cells) {
    && (forall row :: row in rows ==> Dominates(merged, row.cell, row.rank))
    && (forall c :: c in cells ==> Dominates(merged, c, cells[c].rank))
    && (forall c :: c in merged ==> Explained(cells, rows, c, merged[c]))
  }

  ghost predicate Explained(cells: Cells, rows: seq<Row>, c: Cell, e: Entry) {
    || (c in cells && e == cells[c])
    || (e.Remote? && Carries(rows, c, e.rank) && (c in cells ==> e.rank > cells[c].rank))
  }

  lemma {:induction false} MergeIsJoin(cells: Cells, rows: seq<Row>)
    ensures IsJoin(cells, rows, MergeRows(cells, rows))
  {
    if rows == [] {
    } else {
      var init, last := rows[..|rows| - 1], rows[|rows| - 1];
      MergeIsJoin(cells, init);
      assert rows == init + [last];
      InsertKeepsJoin(cells, init, last, MergeRows(cells, init));
    }
  }

  lemma InsertKeepsJoin(cells: Cells, init: seq<Row>, last: Row, before: Cells)
    requires IsJoin(cells, init, before)
    ensures IsJoin(cells, init + [last], Insert(before, last))
  {
    var rows, after := init + [last], Insert(before, last);
    assert last in rows;
    assert forall c :: c in before ==> Dominates(after, c, before[c].rank);
    forall row | row in rows ensures Dominates(after, row.cell, row.rank) {
      assert row in init || row == last;
    }
    forall c | c in after ensures Explained(cells, rows, c, after[c]) {
      if c in before && after[c] == before[c] {
        if Carries(init, c, before[c].rank) {
          var row :| row in init && row.cell == c && row.rank == before[c].rank;
          assert row in rows;
        }
      } else {
        assert last.cell == c && last.rank == after[c].rank;
        if c in cells {
          assert Dominates(before, c, cells[c].rank);
        }
      }
    }
  }

  /** The join does not depend on the order of the rows or on repetitions. */
  lemma JoinIsUnique(cells: Cells, rows1: seq<Row>, rows2: seq<Row>, m1: Cells, m2: Cells)
    requires forall row :: row in rows1 <==> row in rows2
    requires IsJoin(cells, rows1, m1) && IsJoin(cells, rows2, m2)
    ensures m1 == m2
  {
    forall c | c in m1 ensures c in m2 && m1[c] == m2[c] {
    }
    forall c | c in m2 ensures c in m1 {
    }
  }

  lemma {:induction false} MaxVersionIsMax(rows: seq<Row>)
    ensures MaxVersion(rows) >= 0
    ensures forall row :: row in rows ==> row.version <= MaxVersion(rows)
    ensures MaxVersion(rows) == 0 || exists row :: row in rows && row.version == MaxVersion(rows)
  {
    if rows == [] {
    } else {
      var init, last := rows[..|rows| - 1], rows[|rows| - 1];
      MaxVersionIsMax(init);
      assert rows == init + [last];
      assert last in rows;
      assert forall row :: row in init ==> row in rows;
    }
  }

  /** A response may list its rows in any order and repeat any of them. */
  lemma MergeOrderFree(db: Db, site: SiteId, rows1: seq<Row>, rows2: seq<Row>)
    requires forall row :: row in rows1 <==> row in rows2
    ensures Merge(db, site, rows1) == Merge(db, site, rows2)
    ensures MaxVersion(rows1) == MaxVersion(rows2)
  {
    MergeIsJoin(db.cells, rows1);
    MergeIsJoin(db.cells, rows2);
    JoinIsUnique(db.cells, rows1, rows2, MergeRows(db.cells, rows1), MergeRows(db.cells, rows2));
    MaxVersionIsMax(rows1);
    MaxVersionIsMax(rows2);
  }

  // ------------------------------------------- whole histories of responses

  datatype Batch = Batch(site: SiteId, rows: seq<Row>)

  /** Merges a history of responses, first one first. */
  function MergeAll(db: Db, batches: seq<Batch>): Db {
    if batches == [] then db
    else
      var last := batches[|batches| - 1];
      Merge(MergeAll(db, batches[..|batches| - 1]), last.site, last.rows)
  }

  function AllRows(batches: seq<Batch>): seq<Row> {
    if batches == [] then []
    else AllRows(batches[..|batches| - 1]) + batches[|batches| - 1].rows
  }

  lemma {:induction false} MergeRowsAppend(cells: Cells, a: seq<Row>, b: seq<Row>)
    ensures MergeRows(cells, a + b) == MergeRows(MergeRows(cells, a), b)
  {
    if b == [] {
      assert a + b == a;
    } else {
      var init := b[..|b| - 1];
      assert (a + b)[..|a + b| - 1] == a + init;
      MergeRowsAppend(cells, a, init);
    }
  }

  lemma {:induction false} AllRowsMembers(batches: seq<Batch>)
    ensures forall row :: row in AllRows(batches) <==> exists b :: b in batches && row in b.rows
  {
    if batches == [] {
    } else {
      var init, last := batches[..|batches| - 1], batches[|batches| - 1];
      AllRowsMembers(init);
      assert batches == init + [last];
      assert last in batches;
      assert forall b :: b in batches <==> b in init || b == last;
    }
  }

  ghost predicate Gave(batches: seq<Batch>, site: SiteId, version: int) {
    exists b :: b in batches && b.site == site && MaxVersion(b.rows) == version
  }

  /** What the watermarks are after a history of responses. */
  ghost predicate IsWatermark(before: map<SiteId, int>, batches: seq<Batch>, after: map<SiteId, int>) {
    && (forall site :: site in before ==> site in after && after[site] >= before[site])
    && (forall b :: b in batches ==> b.site in after && after[b.site] >= MaxVersion(b.rows))
    && (forall site :: site in after ==>
          (site in before && after[site] == before[site]) || Gave(batches, site, after[site]))
  }

  lemma {:induction false} MergeAllCells(db: Db, batches: seq<Batch>)
    ensures MergeAll(db, batches).site == db.site
    ensures MergeAll(db, batches).clock == db.clock
    ensures MergeAll(db, batches).cells == MergeRows(db.cells, AllRows(batches))
  {
    if batches == [] {
    } else {
      var init, last := batches[..|batches| - 1], batches[|batches| - 1];
      MergeAllCells(db, init);
      MergeRowsAppend(db.cells, AllRows(init), last.rows);
    }
  }

  lemma UpsertKeepsWatermark(before: map<SiteId, int>, init: seq<Batch>, last: Batch, t: map<SiteId, int>)
    requires IsWatermark(before, init, t)
    ensures IsWatermark(before, init + [last], Upsert(t, last.site, MaxVersion(last.rows)))
  {
    var batches := init + [last];
    assert last in batches;
    assert forall b :: b in batches <==> b in init || b == last;
    forall site, version | Gave(init, site, version) ensures Gave(batches, site, version) {
      var b :| b in init && b.site == site && MaxVersion(b.rows) == version;
      assert b in batches;
    }
  }

  lemma {:induction false} MergeAllWatermarks(db: Db, batches: seq<Batch>)
    ensures IsWatermark(db.tracked, batches, MergeAll(db, batches).tracked)
  {
    if batches == [] {
    } else {
      var init, last := batches[..|batches| - 1], batches[|batches| - 1];
      MergeAllWatermarks(db, init);
      UpsertKeepsWatermark(db.tracked, init, last, MergeAll(db, init).tracked);
      assert batches == init + [last];
    }
  }

  lemma WatermarkIsUnique(
      before: map<SiteId, int>, h1: seq<Batch>, h2: seq<Batch>, t1: map<SiteId, int>, t2: map<SiteId, int>)
    requires forall b :: b in h1 <==> b in h2
    requires IsWatermark(before, h1, t1) && IsWatermark(before, h2, t2)
    ensures t1 == t2
  {
    forall site | site in t1 ensures site in t2 && t1[site] == t2[site] {
    }
    forall site | site in t2 ensures site in t1 {
    }
  }

  /** Delayed, reordered and repeated responses leave the same database: its
      cells are the join of every row received, and each watermark is the
      greatest of its old value and the versions received from that site. */
  lemma MergeHistoryOrderFree(db: Db, h1: seq<Batch>, h2: seq<Batch>)
    requires forall b :: b in h1 <==> b in h2
    ensures MergeAll(db, h1) == MergeAll(db, h2)
    ensures IsJoin(db.cells, AllRows(h1), MergeAll(db, h1).cells)
    ensures IsWatermark(db.tracked, h1, MergeAll(db, h1).tracked)
  {
    AllRowsMembers(h1);
    AllRowsMembers(h2);
    MergeAllCells(db, h1);
    MergeAllCells(db, h2);
    MergeAllWatermarks(db, h1);
    MergeAllWatermarks(db, h2);
    MergeIsJoin(db.cells, AllRows(h1));
    MergeIsJoin(db.cells, AllRows(h2));
    assert forall row :: row in AllRows(h1) <==> row in AllRows(h2);
    JoinIsUnique(db.cells, AllRows(h1), AllRows(h2), MergeAll(db, h1).cells, MergeAll(db, h2).cells);
    WatermarkIsUnique(db.tracked, h1, h2, MergeAll(db, h1).tracked, MergeAll(db, h2).tracked);
  }
}
