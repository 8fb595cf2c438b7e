/** `DB`, the SQLite side of a node, proved to move the abstract database of
    `Replica` by exactly the steps the protocol takes. */
module Database {
  import opened Basics
  import opened Messages
  import opened Replica

  /** A row of `crsql_changes`, without the cell that keys it. */
  datatype Clock = Clock(val: Value, colVersion: i64, dbVersion: i64, cl: i64, seqNo: i64, site: Option<SiteId>)

  /** What conflict resolution looks at. */
  datatype Payload = Payload(cl: i64, colVersion: i64, val: Value)

  /** cr-sqlite's order on payloads, by the rank it gives each. */
  type Order = Payload -> Rank

  type Clocks = map<Cell, Clock>

  function RankOf(order: Order, k: Clock): Rank {
    order(Payload(k.cl, k.colVersion, k.val))
  }

  function EntryOf(order: Order, k: Clock): Entry {
    if k.site.None? then Local(RankOf(order, k), k.dbVersion) else Remote(RankOf(order, k))
  }

  function CellsOf(order: Order, clocks: Clocks): Cells {
    map c | c in clocks :: EntryOf(order, clocks[c])
  }

  function CellOf(change: Change): Cell {
    Cell(change.table, change.pk, change.cid)
  }

  function ClockOf(change: Change, site: Option<SiteId>): Clock {
    Clock(change.val, change.colVersion, change.dbVersion, change.cl, change.seqNo, site)
  }

  function RowOf(order: Order, change: Change): Row {
    Row(CellOf(change), RankOf(order, ClockOf(change, None)), change.dbVersion)
  }

  function RowsOf(order: Order, changes: seq<Change>): (rows: seq<Row>)
    ensures |rows| == |changes|
    ensures forall i :: 0 <= i < |changes| ==> rows[i] == RowOf(order, changes[i])
  {
    seq(|changes|, i requires 0 <= i < |changes| => RowOf(order, changes[i]))
  }

  /** A local row as the scan reports it. */
  function ChangeOf(c: Cell, k: Clock): Change {
    Change(c.table, c.pk, c.cid, k.val, k.colVersion, k.dbVersion, k.cl, k.seqNo)
  }

  /** `insert into crsql_changes`, attributed to `site`. */
  function InsertChange(order: Order, clocks: Clocks, change: Change, site: SiteId): Clocks {
    var c := CellOf(change);
    if c in clocks && RankOf(order, clocks[c]) >= RankOf(order, ClockOf(change, None)) then clocks
    else clocks[c := ClockOf(change, Some(site))]
  }

  lemma InsertRefines(order: Order, clocks: Clocks, change: Change, site: SiteId)
    ensures CellsOf(order, InsertChange(order, clocks, change, site)) ==
      Insert(CellsOf(order, clocks), RowOf(order, change))
  {
  }

  /** All columns of a stored row are those of a change received from `site`. */
  predicate StoredAs(k: Clock, change: Change, site: SiteId) {
    && k.val == change.val && k.colVersion == change.colVersion && k.dbVersion == change.dbVersion
    && k.cl == change.cl && k.seqNo == change.seqNo && k.site == Some(site)
  }

  /** An insert touches the row of its own cell only, and leaves there the old row,
      or all columns of the change, attributed to the site it came from. */
  lemma InsertStoresColumns(order: Order, clocks: Clocks, change: Change, site: SiteId)
    ensures var c := Cell(change.table, change.pk, change.cid);
      var after := InsertChange(order, clocks, change, site);
      && after.Keys == clocks.Keys + {c}
      && (forall o :: o in clocks && o != c ==> after[o] == clocks[o])
      && ((c in clocks && after[c] == clocks[c]) || StoredAs(after[c], change, site))
  {
  }

  /** Row `k` of cell `c` stores one of `changes`. */
  ghost predicate StoresOne(c: Cell, k: Clock, changes: seq<Change>, site: SiteId) {
    exists change :: change in changes && c == Cell(change.table, change.pk, change.cid) && StoredAs(k, change, site)
  }

  /** Every row is an old one or stores some change from `site`. */
  ghost predicate StoresChanges(before: Clocks, changes: seq<Change>, site: SiteId, after: Clocks) {
    forall c :: c in after ==> (c in before && after[c] == before[c]) || StoresOne(c, after[c], changes, site)
  }

  lemma NothingStored(clocks: Clocks, site: SiteId)
    ensures StoresChanges(clocks, [], site, clocks)
  {
  }

  lemma OneMoreStored(
      order: Order, before: Clocks, changes: seq<Change>, i: nat, site: SiteId, clocks: Clocks)
    requires i < |changes| && StoresChanges(before, changes[..i], site, clocks)
    ensures StoresChanges(before, changes[..i + 1], site, InsertChange(order, clocks, changes[i], site))
  {
    hide InsertChange, StoredAs;
    var after := InsertChange(order, clocks, changes[i], site);
    InsertStoresColumns(order, clocks, changes[i], site);
    assert changes[..i + 1] == changes[..i] + [changes[i]];
    forall c | c in after && !(c in before && after[c] == before[c])
      ensures StoresOne(c, after[c], changes[..i + 1], site)
    {
      if c in clocks && after[c] == clocks[c] {
        assert StoresOne(c, clocks[c], changes[..i], site);
      } else {
        assert changes[i] in changes[..i + 1];
      }
    }
  }

  /** Where a storage call of `merge` fails. */
  datatype Fault = NoFault | AtBegin | AtInsert(index: nat) | AtUpsert | AtCommit

  predicate Strikes(fault: Fault, changes: seq<Change>) {
    match fault
    case NoFault => false
    case AtInsert(i) => i < |changes|
    case _ => true
  }

  /** One cell of a local transaction. */
  datatype Write = Write(val: Value, colVersion: i64, cl: i64, seqNo: i64)

  function WriteRanks(order: Order, writes: map<Cell, Write>): map<Cell, Rank> {
    map c | c in writes :: order(Payload(writes[c].cl, writes[c].colVersion, writes[c].val))
  }

  /** What other tasks do to the database between two calls of one task. */
  datatype Activity =
    | Committed(version: i64, writes: map<Cell, Write>)
    | Merged(site: SiteId, changes: seq<Change>, fault: Fault)

  predicate CanAct(order: Order, db: Db, a: Activity) {
    a.Committed? ==> CanCommit(db, a.version, WriteRanks(order, a.writes))
  }

  function Act(order: Order, db: Db, a: Activity): Db {
    match a
    case Committed(version, writes) => Commit(db, version, WriteRanks(order, writes))
    case Merged(site, changes, fault) => if Strikes(fault, changes) then db else Merge(db, site, RowsOf(order, changes))
  }

  function ActAll(order: Order, db: Db, acts: seq<Activity>): Db {
    if acts == [] then db
    else Act(order, ActAll(order, db, acts[..|acts| - 1]), acts[|acts| - 1])
  }

  predicate CanActAll(order: Order, db: Db, acts: seq<Activity>) {
    acts == [] ||
    (&& CanActAll(order, db, acts[..|acts| - 1])
     && CanAct(order, ActAll(order, db, acts[..|acts| - 1]), acts[|acts| - 1]))
  }

  lemma {:induction false} CanActPrefix(order: Order, db: Db, acts: seq<Activity>, i: nat)
    requires CanActAll(order, db, acts) && i <= |acts|
    ensures CanActAll(order, db, acts[..i])
  {
    if i == |acts| {
      assert acts[..i] == acts;
    } else {
      CanActPrefix(order, db, acts[..|acts| - 1], i);
      assert acts[..|acts| - 1][..i] == acts[..i];
    }
  }

  /** The scan's result, in full: one change per selected row, all its columns as
      stored, and no row twice. */
  ghost predicate ScanOf(changes: seq<Change>, clocks: Clocks, since: int) {
    && (forall i :: 0 <= i < |changes| ==>
          && Selected(clocks, CellOf(changes[i]), since)
          && changes[i] == ChangeOf(CellOf(changes[i]), clocks[CellOf(changes[i])]))
    && (forall c :: Selected(clocks, c, since) ==> ChangeOf(c, clocks[c]) in changes)
    && (forall i, j :: 0 <= i < j < |changes| ==> CellOf(changes[i]) != CellOf(changes[j]))
  }

  predicate Selected(clocks: Clocks, c: Cell, since: int) {
    c in clocks && clocks[c].site.None? && clocks[c].dbVersion > since
  }

  lemma ScanGrows(changes: seq<Change>, clocks: Clocks, rest: set<Cell>, c: Cell, since: int)
    requires c in rest && rest <= clocks.Keys && ScanOf(changes, clocks - rest, since)
    ensures Selected(clocks, c, since) ==> ScanOf(changes + [ChangeOf(c, clocks[c])], clocks - (rest - {c}), since)
    ensures !Selected(clocks, c, since) ==> ScanOf(changes, clocks - (rest - {c}), since)
  {
    var done, next := clocks - rest, clocks - (rest - {c});
    var longer := changes + [ChangeOf(c, clocks[c])];
    assert next.Keys == done.Keys + {c};
    assert forall o :: Selected(next, o, since) <==> Selected(done, o, since) || (o == c && Selected(clocks, c, since));
    assert ChangeOf(c, clocks[c]) in longer;
    assert forall x :: x in changes ==> x in longer;
  }

  /** At the level of the protocol, such a result lists exactly the local rows
      above `since`. */
  lemma ScanRefines(order: Order, changes: seq<Change>, clocks: Clocks, since: int)
    requires ScanOf(changes, clocks, since)
    ensures forall row :: row in RowsOf(order, changes) <==> row in LocalAbove(CellsOf(order, clocks), since)
  {
    var rows, cells := RowsOf(order, changes), CellsOf(order, clocks);
    forall row | row in rows ensures row in LocalAbove(cells, since) {
      var i :| 0 <= i < |rows| && rows[i] == row;
      var c := CellOf(changes[i]);
      assert Selected(clocks, c, since);
      assert c in cells && cells[c].Local? && row == Row(c, cells[c].rank, cells[c].version);
    }
    forall row | row in LocalAbove(cells, since) ensures row in rows {
      var c :| c in cells && cells[c].Local? && cells[c].version > since
        && row == Row(c, cells[c].rank, cells[c].version);
      assert Selected(clocks, c, since);
      var i :| 0 <= i < |changes| && changes[i] == ChangeOf(c, clocks[c]);
      assert rows[i] == row;
    }
  }

  /** In terms of columns: every change listed is a local row with a greater
      version, column for column, and every such row is listed, once. */
  lemma ScanReportsColumns(changes: seq<Change>, clocks: Clocks, since: int)
    requires ScanOf(changes, clocks, since)
    ensures forall i :: 0 <= i < |changes| ==>
      var c := Cell(changes[i].table, changes[i].pk, changes[i].cid);
      && c in clocks && clocks[c].site.None? && clocks[c].dbVersion > since
      && changes[i].val == clocks[c].val && changes[i].colVersion == clocks[c].colVersion
      && changes[i].dbVersion == clocks[c].dbVersion && changes[i].cl == clocks[c].cl
      && changes[i].seqNo == clocks[c].seqNo
    ensures forall c :: c in clocks && clocks[c].site.None? && clocks[c].dbVersion > since ==>
      exists i :: 0 <= i < |changes| && c == Cell(changes[i].table, changes[i].pk, changes[i].cid)
    ensures forall i, j :: 0 <= i < j < |changes| ==>
      (changes[i].table, changes[i].pk, changes[i].cid) != (changes[j].table, changes[j].pk, changes[j].cid)
  {
    forall c | c in clocks && clocks[c].site.None? && clocks[c].dbVersion > since
      ensures exists i :: 0 <= i < |changes| && c == Cell(changes[i].table, changes[i].pk, changes[i].cid)
    {
      assert Selected(clocks, c, since);
      var i :| 0 <= i < |changes| && changes[i] == ChangeOf(c, clocks[c]);
    }
  }

  /** The early return of `changes` and the scan agree when both look at the same
      state; below version 0 only the scan's answer is the empty one. */
  lemma EarlyReturnAgrees(cells: Cells, since: int)
    ensures since >= StatusVersion(cells) ==> LocalAbove(cells, since) == {}
    ensures since >= 0 ==> (since >= StatusVersion(cells) <==> LocalAbove(cells, since) == {})
  {
    var top := TopVersion(cells, cells.Keys);
    if top.Some? && top.value > since {
      var c :| c in cells && cells[c].Local? && cells[c].version == top.value;
      assert Row(c, cells[c].rank, cells[c].version) in LocalAbove(cells, since);
    }
  }

  /** What `changes` answers and leaves of its database when other tasks do
      `between` between its two reads: the empty early return when nothing is
      above `since` at the first, and otherwise exactly what is above `since` at
      the second. */
  ghost predicate ChangesGive(
      order: Order, before: Db, between: seq<Activity>, after: Db, since: int, changes: seq<Change>)
  {
    if since >= StatusVersion(before.cells) then
      after == before && changes == []
    else
      && after == ActAll(order, before, between)
      && forall row :: row in RowsOf(order, changes) <==> row in LocalAbove(after.cells, since)
  }

  /** Which of the two reads of `changes` fails. */
  datatype ReadFault = NoReadFault | StatusFails | ScanFails

  /** The scan is not reached when nothing is above `since`. */
  ghost predicate ReadStrikes(fault: ReadFault, db: Db, since: int) {
    fault.StatusFails? || (fault.ScanFails? && since < StatusVersion(db.cells))
  }

  /** Where two databases agree on the rank of a cell, and the order tells all
      payloads apart, they show the same value. */
  lemma SameRankSameValue(order: Order, k1: Clock, k2: Clock)
    requires forall p, q :: order(p) == order(q) ==> p == q
    requires EntryOf(order, k1).rank == EntryOf(order, k2).rank
    ensures k1.val == k2.val && k1.colVersion == k2.colVersion && k1.cl == k2.cl
  {
    assert Payload(k1.cl, k1.colVersion, k1.val) == Payload(k2.cl, k2.colVersion, k2.val);
  }

  class DB {
    const siteId: SiteId
    const order: Order
    var clocks: Clocks
    var trackedPeers: map<SiteId, i64>
    var lastStamped: int

    constructor (siteId: SiteId, order: Order)
      ensures this.siteId == siteId && this.order == order
      ensures Model() == FreshDb(siteId)
    {
      this.siteId, this.order := siteId, order;
      clocks, trackedPeers, lastStamped := map[], map[], 0;
    }

    /** The database as the protocol sees it. */
    function Model(): Db
      reads this
    {
      Db(siteId, CellsOf(order, clocks), lastStamped, trackedPeers)
    }

    method TrackedPeerVersion(site: SiteId, queryOk: bool) returns (r: Result<i64, Error>)
      ensures r.Ok? <==> queryOk
      ensures r.Ok? ==> r.value == Tracked(Model(), site)
    {
      if !queryOk {
        return Err(Storage);
      }
      if site in trackedPeers {
        return Ok(trackedPeers[site]);
      }
      return Ok(0);
    }

    /** Applies the rows and moves the watermark in one transaction. Whatever
        call fails, the database is as it was before. */
    method Merge(site: SiteId, changes: seq<Change>, fault: Fault) returns (r: Result<i64, Error>)
      modifies this
      ensures r.Ok? <==> fault.NoFault? || (fault.AtInsert? && fault.index >= |changes|)
      ensures r.Err? <==> Strikes(fault, changes)
      ensures r.Err? ==> clocks == old(clocks) && trackedPeers == old(trackedPeers) && lastStamped == old(lastStamped)
      ensures r.Ok? ==> r.value == MaxVersion(RowsOf(order, changes))
      ensures r.Ok? ==> Model() == Replica.Merge(old(Model()), site, RowsOf(order, changes))
      ensures r.Ok? ==> StoresChanges(old(clocks), changes, site, clocks)
    {
      hide Insert, InsertChange, StoresChanges;
      NothingStored(clocks, site);
      if fault.AtBegin? {
        return Err(Storage);
      }
      var tx := clocks;
      var maxDbVersion: i64 := 0;
      ghost var rows := RowsOf(order, changes);
      for i := 0 to |changes|
        invariant unchanged(this)
        invariant CellsOf(order, tx) == MergeRows(CellsOf(order, clocks), rows[..i])
        invariant maxDbVersion == MaxVersion(rows[..i])
        invariant StoresChanges(clocks, changes[..i], site, tx)
        invariant forall k :: 0 <= k < i ==> fault != AtInsert(k)
      {
        var change := changes[i];
        if change.dbVersion > maxDbVersion {
          maxDbVersion := change.dbVersion;
        }
        if fault == AtInsert(i) {
          return Err(Storage);
        }
        InsertRefines(order, tx, change, site);
        OneMoreStored(order, clocks, changes, i, site, tx);
        assert rows[..i + 1][..i] == rows[..i];
        tx := InsertChange(order, tx, change, site);
      }
      assert rows[..|changes|] == rows && changes[..|changes|] == changes;
      if fault.AtUpsert? {
        return Err(Storage);
      }
      var version :=
        if site in trackedPeers && trackedPeers[site] > maxDbVersion then trackedPeers[site] else maxDbVersion;
      var trackedTx := trackedPeers[site := version];
      if fault.AtCommit? {
        return Err(Storage);
      }
      clocks, trackedPeers := tx, trackedTx;
      r := Ok(maxDbVersion);
    }

    /** A transaction of some other user of the database file. */
    method CommitWrites(version: i64, writes: map<Cell, Write>)
      requires CanCommit(Model(), version, WriteRanks(order, writes))
      modifies this
      ensures Model() == Commit(old(Model()), version, WriteRanks(order, writes))
      ensures clocks.Keys == old(clocks).Keys + writes.Keys
      ensures forall c :: c in writes ==>
        && clocks[c].val == writes[c].val && clocks[c].colVersion == writes[c].colVersion
        && clocks[c].cl == writes[c].cl && clocks[c].seqNo == writes[c].seqNo
        && clocks[c].dbVersion == version && clocks[c].site.None?
      ensures forall c :: c in old(clocks) && c !in writes ==> clocks[c] == old(clocks)[c]
    {
      clocks := map c | c in clocks.Keys + writes.Keys ::
        if c in writes then Clock(writes[c].val, writes[c].colVersion, version, writes[c].cl, writes[c].seqNo, None)
        else clocks[c];
      lastStamped := version;
    }

    method Status(queryOk: bool) returns (r: Result<(SiteId, i64), Error>)
      ensures r.Ok? <==> queryOk
      ensures r.Ok? ==> r.value.0 == siteId && r.value.1 == StatusVersion(Model().cells)
      ensures r.Ok? ==> forall c :: c in clocks && clocks[c].site.None? ==> clocks[c].dbVersion <= r.value.1
      ensures r.Ok? && r.value.1 != 0 ==>
        exists c :: c in clocks && clocks[c].site.None? && clocks[c].dbVersion == r.value.1
    {
      if !queryOk {
        return Err(Storage);
      }
      var best: Option<i64> := None;
      var rest := clocks.Keys;
      while rest != {}
        invariant rest <= clocks.Keys
        invariant forall c :: c in clocks.Keys - rest && clocks[c].site.None? ==>
          best.Some? && clocks[c].dbVersion <= best.value
        invariant best.Some? ==>
          exists c :: c in clocks.Keys - rest && clocks[c].site.None? && clocks[c].dbVersion == best.value
        decreases rest
      {
        var c :| c in rest;
        if clocks[c].site.None? && (best.None? || clocks[c].dbVersion > best.value) {
          best := Some(clocks[c].dbVersion);
        }
        rest := rest - {c};
      }
      IsTop(best);
      return Ok((siteId, match best case Some(v) => v case None => 0));
    }

    lemma IsTop(best: Option<i64>)
      requires forall c :: c in clocks && clocks[c].site.None? ==> best.Some? && clocks[c].dbVersion <= best.value
      requires best.Some? ==> exists c :: c in clocks && clocks[c].site.None? && clocks[c].dbVersion == best.value
      ensures StatusVersion(Model().cells) == match best case Some(v) => v case None => 0
    {
      var cells := Model().cells;
      var top := TopVersion(cells, cells.Keys);
      if best.Some? {
        var c :| c in clocks && clocks[c].site.None? && clocks[c].dbVersion == best.value;
        assert c in cells && cells[c].Local?;
      }
    }

    /** Other tasks at work on the same database. */
    method Elapse(acts: seq<Activity>)
      requires CanActAll(order, Model(), acts)
      modifies this
      ensures Model() == ActAll(order, old(Model()), acts)
    {
      ghost var start := Model();
      assert acts[..0] == [];
      for i := 0 to |acts|
        invariant Model() == ActAll(order, start, acts[..i])
      {
        assert acts[..i + 1][..i] == acts[..i];
        CanActPrefix(order, start, acts, i + 1);
        match acts[i] {
          case Committed(version, writes) =>
            CommitWrites(version, writes);
          case Merged(site, changes, fault) =>
            var _ := Merge(site, changes, fault);
        }
      }
      assert acts[..|acts|] == acts;
    }

    /** The scan query, the second of the two calls of `changes`. */
    method Scan(since: i64) returns (changes: seq<Change>)
      ensures ScanOf(changes, clocks, since)
    {
      changes := [];
      var rest := clocks.Keys;
      while rest != {}
        invariant rest <= clocks.Keys
        invariant ScanOf(changes, clocks - rest, since)
        decreases rest
      {
        var c :| c in rest;
        ScanGrows(changes, clocks, rest, c, since);
        if clocks[c].site.None? && clocks[c].dbVersion > since {
          changes := changes + [ChangeOf(c, clocks[c])];
        }
        rest := rest - {c};
      }
      assert clocks - {} == clocks;
    }

    /** `changes` reads the status and the rows in two calls; `between` is what
        other tasks get done in the meantime. */
    method Changes(since: i64, between: seq<Activity>, fault: ReadFault)
      returns (r: Result<(SiteId, seq<Change>), Error>)
      requires CanActAll(order, Model(), between)
      modifies this
      ensures r.Err? <==> ReadStrikes(fault, old(Model()), since)
      ensures r.Err? ==>
        Model() == if fault.StatusFails? then old(Model()) else ActAll(order, old(Model()), between)
      ensures r.Ok? ==>
        r.value.0 == siteId && ChangesGive(order, old(Model()), between, Model(), since, r.value.1)
      ensures r.Ok? && since >= StatusVersion(old(Model()).cells) ==> LocalAbove(old(Model()).cells, since) == {}
      ensures r.Ok? && since < StatusVersion(old(Model()).cells) ==> ScanOf(r.value.1, clocks, since)
    {
      var status :- Status(!fault.StatusFails?);
      if since >= status.1 {
        EarlyReturnAgrees(Model().cells, since);
        return Ok((status.0, []));
      }
      Elapse(between);
      if fault.ScanFails? {
        return Err(Storage);
      }
      var changes := Scan(since);
      ScanRefines(order, changes, clocks, since);
      return Ok((status.0, changes));
    }
  }
}
