/** Nodes never relay what they pulled: a response lists local rows only. These
    lemmas show that this hides nothing: while no database is replaced, the best
    rank of a cell is always a local row somewhere. */
module Exposure {
  import opened Basics
  import opened Replica
  import opened Protocol

  /** Some node holds cell `c` as local with rank at least `x`. */
  ghost predicate Shown(s: State, c: Cell, x: Rank) {
    exists b :: b in s.nodes && HoldsLocal(s.nodes[b].db.cells, c) && s.nodes[b].db.cells[c].rank >= x
  }

  ghost predicate DatabasesShown(s: State) {
    forall n, c :: n in s.nodes && c in s.nodes[n].db.cells ==> Shown(s, c, s.nodes[n].db.cells[c].rank)
  }

  ghost predicate ResponsesShown(s: State) {
    forall p, row :: p in s.responses && row in p.rows ==> Shown(s, row.cell, row.rank)
  }

  ghost predicate AllShown(s: State) {
    DatabasesShown(s) && ResponsesShown(s)
  }

  lemma CommitKeepsShown(s: State, n: NodeId, version: int, writes: map<Cell, Rank>, c: Cell, x: Rank)
    requires Enabled(s, LocalTxn(n, version, writes)) && Shown(s, c, x)
    ensures Shown(Apply(s, LocalTxn(n, version, writes)), c, x)
  {
    var b :| b in s.nodes && HoldsLocal(s.nodes[b].db.cells, c) && s.nodes[b].db.cells[c].rank >= x;
    var s' := Apply(s, LocalTxn(n, version, writes));
    assert b in s'.nodes && HoldsLocal(s'.nodes[b].db.cells, c) && s'.nodes[b].db.cells[c].rank >= x;
  }

  /** A merge may take the best local copy of a cell away from its node, but only
      in favour of a better one that is still local elsewhere. */
  lemma MergeKeepsShown(s: State, p: Response, c: Cell, x: Rank)
    requires Enabled(s, Deliver(p)) && p.site == p.req.target && ResponsesShown(s) && Shown(s, c, x)
    ensures Shown(Apply(s, Deliver(p)), c, x)
  {
    var n := p.req.puller;
    var s' := Apply(s, Deliver(p));
    var cells, merged := s.nodes[n].db.cells, s'.nodes[n].db.cells;
    MergeIsJoin(cells, p.rows);
    var b :| b in s.nodes && HoldsLocal(s.nodes[b].db.cells, c) && s.nodes[b].db.cells[c].rank >= x;
    if b == n && merged[c] != cells[c] {
      assert Explained(cells, p.rows, c, merged[c]);
      var row :| row in p.rows && row.cell == c && row.rank == merged[c].rank;
      assert Shown(s, c, row.rank);
      var o :| o in s.nodes && HoldsLocal(s.nodes[o].db.cells, c) && s.nodes[o].db.cells[c].rank >= row.rank;
      assert o != n && s'.nodes[o] == s.nodes[o];
    } else {
      assert HoldsLocal(s'.nodes[b].db.cells, c);
    }
  }

  lemma SameDatabasesKeepShown(s: State, s': State, c: Cell, x: Rank)
    requires s'.nodes.Keys == s.nodes.Keys
    requires forall n :: n in s.nodes ==> s'.nodes[n].db == s.nodes[n].db
    ensures Shown(s, c, x) ==> Shown(s', c, x)
  {
    if Shown(s, c, x) {
      var b :| b in s.nodes && HoldsLocal(s.nodes[b].db.cells, c) && s.nodes[b].db.cells[c].rank >= x;
      assert b in s'.nodes && HoldsLocal(s'.nodes[b].db.cells, c);
    }
  }

  predicate MovesNoDatabase(l: Label) {
    l.Announce? || l.Refresh? || l.BeginPull? || l.AnswerStatus? || l.AnswerRows?
      || (l.Deliver? && l.resp.site != l.resp.req.target)
  }

  lemma StillDatabases(s: State, l: Label)
    requires Enabled(s, l) && MovesNoDatabase(l)
    ensures Apply(s, l).nodes.Keys == s.nodes.Keys
    ensures forall n :: n in s.nodes ==> Apply(s, l).nodes[n].db == s.nodes[n].db
  {
  }

  lemma StepKeepsShown(s: State, l: Label, c: Cell, x: Rank)
    requires Enabled(s, l) && !l.ReplaceDb? && AllShown(s) && Shown(s, c, x)
    ensures Shown(Apply(s, l), c, x)
  {
    if MovesNoDatabase(l) {
      StillDatabases(s, l);
      SameDatabasesKeepShown(s, Apply(s, l), c, x);
    } else if l.LocalTxn? {
      CommitKeepsShown(s, l.node, l.version, l.writes, c, x);
    } else {
      MergeKeepsShown(s, l.resp, c, x);
    }
  }

  // ------------------------------------------------- where ranks come from

  /** Step `l` from `s` writes rank `x` into cell `c`. */
  ghost predicate Writes(l: Label, c: Cell, x: Rank) {
    l.LocalTxn? && c in l.writes && l.writes[c] == x
  }

  /** Rank `x` of cell `c` is in some database or some response. */
  ghost predicate Present(s: State, c: Cell, x: Rank) {
    InDatabase(s, c, x) || InResponse(s, c, x)
  }

  ghost predicate InDatabase(s: State, c: Cell, x: Rank) {
    exists n :: n in s.nodes && c in s.nodes[n].db.cells && s.nodes[n].db.cells[c].rank == x
  }

  ghost predicate InResponse(s: State, c: Cell, x: Rank) {
    exists p, row :: p in s.responses && row in p.rows && row.cell == c && row.rank == x
  }

  /** A rank that a database holds after a step was there before, or was just
      written. */
  lemma DatabaseRanks(s: State, l: Label, n: NodeId, c: Cell)
    requires Enabled(s, l) && n in Apply(s, l).nodes && c in Apply(s, l).nodes[n].db.cells
    ensures var x := Apply(s, l).nodes[n].db.cells[c].rank; Present(s, c, x) || Writes(l, c, x)
  {
    var s' := Apply(s, l);
    var x := s'.nodes[n].db.cells[c].rank;
    assert n in s.nodes;
    if l.Deliver? && l.resp.site == l.resp.req.target && n == l.resp.req.puller {
      MergeIsJoin(s.nodes[n].db.cells, l.resp.rows);
      assert Explained(s.nodes[n].db.cells, l.resp.rows, c, s'.nodes[n].db.cells[c]);
      if !(c in s.nodes[n].db.cells && s.nodes[n].db.cells[c].rank == x) {
        var row :| row in l.resp.rows && row.cell == c && row.rank == x;
        assert InResponse(s, c, x);
      }
    } else if !Writes(l, c, x) {
      assert c in s.nodes[n].db.cells && s.nodes[n].db.cells[c].rank == x;
    }
  }

  lemma ResponseRanks(s: State, l: Label, p: Response, row: Row)
    requires Enabled(s, l) && p in Apply(s, l).responses && row in p.rows
    ensures Present(s, row.cell, row.rank)
  {
    if p in s.responses {
      assert InResponse(s, row.cell, row.rank);
    } else {
      var db := s.nodes[l.scan.req.peer].db;
      assert row in LocalAbove(db.cells, l.scan.req.since);
      assert InDatabase(s, row.cell, row.rank);
    }
  }

  lemma PresentStep(s: State, l: Label, c: Cell, x: Rank)
    requires Enabled(s, l) && Present(Apply(s, l), c, x)
    ensures Present(s, c, x) || Writes(l, c, x)
  {
    var s' := Apply(s, l);
    if InDatabase(s', c, x) {
      var n :| n in s'.nodes && c in s'.nodes[n].db.cells && s'.nodes[n].db.cells[c].rank == x;
      DatabaseRanks(s, l, n, c);
    } else {
      var p, row :| p in s'.responses && row in p.rows && row.cell == c && row.rank == x;
      ResponseRanks(s, l, p, row);
    }
  }

  lemma WrittenIsShown(s: State, l: Label, c: Cell, x: Rank)
    requires Enabled(s, l) && Writes(l, c, x)
    ensures Shown(Apply(s, l), c, x)
  {
    assert HoldsLocal(Apply(s, l).nodes[l.node].db.cells, c);
  }

  lemma AllShownIffPresentShown(s: State)
    ensures AllShown(s) <==> forall c, x :: Present(s, c, x) ==> Shown(s, c, x)
  {
    if AllShown(s) {
      forall c, x | Present(s, c, x) ensures Shown(s, c, x) {
        if InDatabase(s, c, x) {
          var n :| n in s.nodes && c in s.nodes[n].db.cells && s.nodes[n].db.cells[c].rank == x;
        } else {
          var p, row :| p in s.responses && row in p.rows && row.cell == c && row.rank == x;
        }
      }
    }
    if forall c, x :: Present(s, c, x) ==> Shown(s, c, x) {
      forall n, c | n in s.nodes && c in s.nodes[n].db.cells ensures Shown(s, c, s.nodes[n].db.cells[c].rank) {
        assert InDatabase(s, c, s.nodes[n].db.cells[c].rank);
      }
      forall p, row | p in s.responses && row in p.rows ensures Shown(s, row.cell, row.rank) {
        assert InResponse(s, row.cell, row.rank);
      }
    }
  }

  lemma StepKeepsAllShown(s: State, l: Label)
    requires Enabled(s, l) && !l.ReplaceDb? && AllShown(s)
    ensures AllShown(Apply(s, l))
  {
    var s' := Apply(s, l);
    AllShownIffPresentShown(s);
    forall c, x | Present(s', c, x) ensures Shown(s', c, x) {
      PresentStep(s, l, c, x);
      if Present(s, c, x) {
        StepKeepsShown(s, l, c, x);
      } else {
        WrittenIsShown(s, l, c, x);
      }
    }
    AllShownIffPresentShown(s');
  }

  /** Winner stays exposed: whatever rank a database holds or a response carries,
      some node holds the cell as local with a rank at least as good. */
  lemma {:induction false} WinnerStaysExposed(r: Run, i: nat)
    requires r.Valid() && NoReplace(r) && i < |r.states|
    ensures AllShown(r.states[i])
  {
    if i == 0 {
    } else {
      WinnerStaysExposed(r, i - 1);
      StepKeepsAllShown(r.states[i - 1], r.labels[i - 1]);
    }
  }

  /** `x` is at least every rank of cell `c` in any database or response. */
  ghost predicate Bounds(s: State, c: Cell, x: Rank) {
    forall y :: Present(s, c, y) ==> y <= x
  }

  /** `x` is the greatest rank of cell `c` over all databases and responses. */
  ghost predicate Greatest(s: State, c: Cell, x: Rank) {
    Present(s, c, x) && Bounds(s, c, x)
  }

  lemma GreatestShownIsLocal(s: State, c: Cell, x: Rank) returns (b: NodeId)
    requires Shown(s, c, x) && Greatest(s, c, x)
    ensures b in s.nodes && HoldsLocal(s.nodes[b].db.cells, c) && s.nodes[b].db.cells[c].rank == x
  {
    b :| b in s.nodes && HoldsLocal(s.nodes[b].db.cells, c) && s.nodes[b].db.cells[c].rank >= x;
    var y := s.nodes[b].db.cells[c].rank;
    assert InDatabase(s, c, y);
    assert Present(s, c, y);
  }

  /** The greatest rank of a cell is the rank of a row its origin still exposes. */
  lemma GreatestIsLocal(r: Run, i: nat, c: Cell, x: Rank) returns (b: NodeId)
    requires r.Valid() && NoReplace(r) && i < |r.states| && Greatest(r.states[i], c, x)
    ensures b in r.states[i].nodes && HoldsLocal(r.states[i].nodes[b].db.cells, c)
    ensures r.states[i].nodes[b].db.cells[c].rank == x
  {
    WinnerStaysExposed(r, i);
    AllShownIffPresentShown(r.states[i]);
    b := GreatestShownIsLocal(r.states[i], c, x);
  }

  /** Rank `x` was written into cell `c` at some step before `i`. */
  ghost predicate WrittenBefore(r: Run, i: nat, c: Cell, x: Rank) {
    exists k :: 0 <= k < i && k < |r.labels| && Writes(r.labels[k], c, x)
  }

  lemma {:induction false} PresentWasWritten(r: Run, i: nat, c: Cell, x: Rank)
    requires r.Valid() && i < |r.states| && Present(r.states[i], c, x)
    ensures WrittenBefore(r, i, c, x)
  {
    if i == 0 {
    } else {
      PresentStep(r.states[i - 1], r.labels[i - 1], c, x);
      if Present(r.states[i - 1], c, x) {
        PresentWasWritten(r, i - 1, c, x);
      }
    }
  }

  lemma {:induction false} WrittenStaysShown(r: Run, i: nat, c: Cell, x: Rank)
    requires r.Valid() && NoReplace(r) && i < |r.states| && WrittenBefore(r, i, c, x)
    ensures Shown(r.states[i], c, x)
  {
    hide AllShown, Shown, Enabled, Apply;
    assert Enabled(r.states[i - 1], r.labels[i - 1]) && r.states[i] == Apply(r.states[i - 1], r.labels[i - 1]);
    if Writes(r.labels[i - 1], c, x) {
      WrittenIsShown(r.states[i - 1], r.labels[i - 1], c, x);
    } else {
      assert WrittenBefore(r, i - 1, c, x);
      WrittenStaysShown(r, i - 1, c, x);
      WinnerStaysExposed(r, i - 1);
      StepKeepsShown(r.states[i - 1], r.labels[i - 1], c, x);
    }
  }

  // ---------------------------------------- after earlier replacements

  /** Once a cell's greatest rank is shown, it stays shown and the greatest while
      nobody writes or replaces a database, whatever was lost for other cells. */
  lemma ShownTopStays(s: State, l: Label, c: Cell, x: Rank)
    requires Enabled(s, l) && !l.LocalTxn? && !l.ReplaceDb? && Shown(s, c, x) && Bounds(s, c, x)
    ensures Shown(Apply(s, l), c, x) && Bounds(Apply(s, l), c, x)
  {
    forall y | Present(Apply(s, l), c, y) ensures y <= x {
      PresentStep(s, l, c, y);
    }
    if MovesNoDatabase(l) {
      StillDatabases(s, l);
      SameDatabasesKeepShown(s, Apply(s, l), c, x);
    } else {
      MergeKeepsShownTop(s, l.resp, c, x);
    }
  }

  lemma MergeKeepsShownTop(s: State, p: Response, c: Cell, x: Rank)
    requires Enabled(s, Deliver(p)) && p.site == p.req.target && Shown(s, c, x) && Bounds(s, c, x)
    ensures Shown(Apply(s, Deliver(p)), c, x)
  {
    var s' := Apply(s, Deliver(p));
    var b :| b in s.nodes && HoldsLocal(s.nodes[b].db.cells, c) && s.nodes[b].db.cells[c].rank >= x;
    var cells, merged := s.nodes[b].db.cells, s'.nodes[b].db.cells;
    if b == p.req.puller {
      MergeIsJoin(cells, p.rows);
      if merged[c] != cells[c] {
        assert Explained(cells, p.rows, c, merged[c]);
        assert InResponse(s, c, merged[c].rank);
        assert Present(s, c, merged[c].rank);
        assert false;
      }
    }
    assert HoldsLocal(merged, c) && merged[c].rank >= x;
  }

  lemma {:induction false} ShownTopStaysFrom(r: Run, t: nat, i: nat, c: Cell, x: Rank)
    requires r.Valid() && NoReplaceFrom(r, t) && QuietFrom(r, t) && t <= i < |r.states|
    requires Shown(r.states[t], c, x) && Bounds(r.states[t], c, x)
    ensures Shown(r.states[i], c, x) && Bounds(r.states[i], c, x)
  {
    if i == t {
    } else {
      ShownTopStaysFrom(r, t, i - 1, c, x);
      ShownTopStays(r.states[i - 1], r.labels[i - 1], c, x);
    }
  }
}
