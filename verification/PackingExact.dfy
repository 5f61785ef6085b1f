/**
 Exactly when the messages of a packed report keep to the limits, told from the rows and the introduction: no plan has
 to be known.
 */
module PackingExact {
  import opened PackingTables

  /** The row would fit into message j on its own. */
  predicate RowFits(fr: Frame, rs: seq<Rendered>, lim: Limits, row: (nat, nat), j: nat) {
    Fits(fr, rs, lim, [Table(row.0, row.1, row.1 + 1)], j)
  }

  // ----- a message takes at least what one of its rows takes -----

  lemma {:induction false} ConcatHolds(parts: seq<string>, i: nat)
    requires i < |parts|
    ensures |Concat(parts)| >= |parts[i]|
  {
    if i < |parts| - 1 {
      ConcatHolds(parts[..|parts| - 1], i);
    }
  }

  lemma LoneTable(rs: seq<Rendered>, end: string, t: Table)
    ensures Body(rs, end, [t]) == TableText(rs, end, t) && Blocks(rs, [t]) == 1 + TableBlocks(rs, t)
  {
    assert [t][..0] == [];
    assert Body(rs, end, []) == "" && Blocks(rs, []) == 1;
  }

  lemma RowOfTable(rs: seq<Rendered>, end: string, t: Table, r: nat)
    requires IsTable(rs, t) && t.lo <= r < t.hi
    ensures var one := Table(t.sec, r, r + 1);
            && IsTable(rs, one) && TableBlocks(rs, one) <= TableBlocks(rs, t)
            && |TableText(rs, end, one)| <= |TableText(rs, end, t)|
  {
    var rows := rs[t.sec].rows;
    ConcatHolds(rows[t.lo..t.hi], r - t.lo);
    assert rows[r..r + 1] == [rows[r]] && [rows[r]][..0] == [];
    assert Concat([rows[r]]) == Concat([]) + rows[r];
  }

  lemma {:induction false} TableOfMessage(rs: seq<Rendered>, end: string, ts: seq<Table>, q: nat)
    requires q < |ts|
    ensures Blocks(rs, ts) >= 1 + TableBlocks(rs, ts[q]) && |Body(rs, end, ts)| >= |TableText(rs, end, ts[q])|
  {
    if q < |ts| - 1 {
      TableOfMessage(rs, end, ts[..|ts| - 1], q);
    } else {
      SomeBlocks(rs, ts[..q]);
    }
  }

  lemma {:induction false} SomeBlocks(rs: seq<Rendered>, ts: seq<Table>)
    ensures Blocks(rs, ts) >= 1
  {
    if ts != [] {
      SomeBlocks(rs, ts[..|ts| - 1]);
    }
  }

  lemma RowOfMessage(fr: Frame, rs: seq<Rendered>, lim: Limits, ts: seq<Table>, j: nat, q: nat, r: nat)
    requires IsPlan(rs, ts) && q < |ts| && ts[q].lo <= r < ts[q].hi && Fits(fr, rs, lim, ts, j)
    ensures RowFits(fr, rs, lim, (ts[q].sec, r), j)
  {
    hide Body, Blocks, TableText, TableBlocks;
    TableOfMessage(rs, fr.end, ts, q);
    RowOfTable(rs, fr.end, ts[q], r);
    LoneTable(rs, fr.end, Table(ts[q].sec, r, r + 1));
  }

  // ----- where the rows are -----

  lemma {:induction false} RowIn(sec: nat, lo: nat, hi: nat, row: (nat, nat))
    ensures row in RowsOf(sec, lo, hi) <==> row.0 == sec && lo <= row.1 < hi
    decreases hi
  {
    if lo < hi {
      RowIn(sec, lo, hi - 1, row);
    }
  }

  lemma {:induction false} RowInMessage(ts: seq<Table>, row: (nat, nat)) returns (q: nat)
    requires row in Shown(ts)
    ensures q < |ts| && ts[q].sec == row.0 && ts[q].lo <= row.1 < ts[q].hi
  {
    var last := |ts| - 1;
    RowIn(ts[last].sec, ts[last].lo, ts[last].hi, row);
    if row in Shown(ts[..last]) {
      q := RowInMessage(ts[..last], row);
    } else {
      q := last;
    }
  }

  lemma {:induction false} RowInPlan(plan: seq<seq<Table>>, row: (nat, nat)) returns (j: nat)
    requires row in ShownInAll(plan)
    ensures j < |plan| && row in Shown(plan[j])
  {
    var last := |plan| - 1;
    if row in ShownInAll(plan[..last]) {
      j := RowInPlan(plan[..last], row);
    } else {
      j := last;
    }
  }

  lemma {:induction false} ShownIsIn(plan: seq<seq<Table>>, j: nat, row: (nat, nat))
    requires j < |plan| && row in Shown(plan[j])
    ensures row in ShownInAll(plan)
  {
    if j < |plan| - 1 {
      ShownIsIn(plan[..|plan| - 1], j, row);
    }
  }

  lemma {:induction false} FirstOfTable(sec: nat, lo: nat, hi: nat)
    requires lo < hi
    ensures |RowsOf(sec, lo, hi)| > 0 && RowsOf(sec, lo, hi)[0] == (sec, lo)
    decreases hi
  {
    if lo < hi - 1 {
      FirstOfTable(sec, lo, hi - 1);
    }
  }

  lemma {:induction false} FirstOfMessage(rs: seq<Rendered>, ts: seq<Table>)
    requires IsPlan(rs, ts) && ts != []
    ensures |Shown(ts)| > 0 && Shown(ts)[0] == (ts[0].sec, ts[0].lo)
  {
    var last := |ts| - 1;
    FirstOfTable(ts[last].sec, ts[last].lo, ts[last].hi);
    if last > 0 {
      FirstOfMessage(rs, ts[..last]);
    } else {
      assert ts[..0] == [];
    }
  }

  lemma {:induction false} FirstOfPlan(plan: seq<seq<Table>>)
    requires plan != [] && Shown(plan[0]) != []
    ensures |ShownInAll(plan)| > 0 && ShownInAll(plan)[0] == Shown(plan[0])[0]
  {
    var last := |plan| - 1;
    if last > 0 {
      FirstOfPlan(plan[..last]);
    } else {
      assert plan[..0] == [] && ShownInAll([]) == [];
      assert ShownInAll(plan) == [] + Shown(plan[0]);
    }
  }

  // ----- the exact conditions -----

  /** A message that is not empty keeps to the limits, in the room counted for it, if and only if its first row does on its own. */
  lemma MessageFitsExactly(fr: Frame, rs: seq<Rendered>, lim: Limits, plan: seq<seq<Table>>, j: nat)
    requires Packed(fr, rs, lim, plan) && j < |plan| && plan[j] != []
    ensures Fits(fr, rs, lim, plan[j], j) <==> RowFits(fr, rs, lim, (plan[j][0].sec, plan[j][0].lo), j)
  {
    assert KeepsTo(fr, rs, lim, plan, j);
    if Fits(fr, rs, lim, plan[j], j) {
      RowOfMessage(fr, rs, lim, plan[j], j, 0, plan[j][0].lo);
    } else {
      assert plan[j] == [Table(plan[j][0].sec, plan[j][0].lo, plan[j][0].lo + 1)];
    }
  }

  lemma FirstRow(fr: Frame, rs: seq<Rendered>, lim: Limits, plan: seq<seq<Table>>)
    requires Packed(fr, rs, lim, plan) && AllRows(rs, |rs|) != []
    ensures plan[0] != [] && (plan[0][0].sec, plan[0][0].lo) == AllRows(rs, |rs|)[0]
  {
    FirstMessageTakesARow(fr, rs, lim, plan);
    assert KeepsTo(fr, rs, lim, plan, 0);
    FirstOfMessage(rs, plan[0]);
    FirstOfPlan(plan);
  }

  /** The first message keeps to the limits if and only if the report's first row fits beside the introduction. */
  lemma FirstMessageFitsExactly(fr: Frame, rs: seq<Rendered>, lim: Limits, plan: seq<seq<Table>>)
    requires Packed(fr, rs, lim, plan) && AllRows(rs, |rs|) != []
    ensures Fits(fr, rs, lim, plan[0], 0) <==> RowFits(fr, rs, lim, AllRows(rs, |rs|)[0], 0)
  {
    FirstRow(fr, rs, lim, plan);
    MessageFitsExactly(fr, rs, lim, plan, 0);
  }

  /** What the caller can check: the first row fits beside the introduction, and every row into a later message. */
  ghost predicate RowsFit(fr: Frame, rs: seq<Rendered>, lim: Limits) {
    && AllRows(rs, |rs|) != [] && RowFits(fr, rs, lim, AllRows(rs, |rs|)[0], 0)
    && forall row :: row in AllRows(rs, |rs|) ==> RowFits(fr, rs, lim, row, 1)
  }

  lemma SameRoomLater(fr: Frame, rs: seq<Rendered>, lim: Limits, row: (nat, nat), j: nat)
    requires j > 0
    ensures RowFits(fr, rs, lim, row, j) <==> RowFits(fr, rs, lim, row, 1)
  {
  }

  lemma LaterMessageFits(fr: Frame, rs: seq<Rendered>, lim: Limits, plan: seq<seq<Table>>, j: nat)
    requires Packed(fr, rs, lim, plan) && 0 < j < |plan| && RowsFit(fr, rs, lim)
    ensures Fits(fr, rs, lim, plan[j], j)
  {
    hide Fits, RowFits, Shown, ShownInAll, AllRows;
    assert KeepsTo(fr, rs, lim, plan, j);
    var row := (plan[j][0].sec, plan[j][0].lo);
    FirstOfMessage(rs, plan[j]);
    ShownIsIn(plan, j, row);
    SameRoomLater(fr, rs, lim, row, j);
    MessageFitsExactly(fr, rs, lim, plan, j);
  }

  lemma FittingRow(fr: Frame, rs: seq<Rendered>, lim: Limits, plan: seq<seq<Table>>, row: (nat, nat))
    requires Packed(fr, rs, lim, plan) && fr.later <= fr.first && row in AllRows(rs, |rs|)
    requires forall j :: 0 <= j < |plan| ==> Fits(fr, rs, lim, plan[j], j)
    ensures RowFits(fr, rs, lim, row, 1)
  {
    var j := RowInPlan(plan, row);
    var q := RowInMessage(plan[j], row);
    assert KeepsTo(fr, rs, lim, plan, j);
    RowOfMessage(fr, rs, lim, plan[j], j, q, row.1);
  }

  /**
   All messages of a report with rows keep to both limits, in the room counted for them, if and only if the first row fits
   beside the introduction and every row would fit into a later message on its own.
   */
  lemma AllMessagesFitExactly(fr: Frame, rs: seq<Rendered>, lim: Limits, plan: seq<seq<Table>>)
    requires Packed(fr, rs, lim, plan) && fr.later <= fr.first && AllRows(rs, |rs|) != []
    ensures (forall j :: 0 <= j < |plan| ==> Fits(fr, rs, lim, plan[j], j)) <==> RowsFit(fr, rs, lim)
  {
    FirstMessageFitsExactly(fr, rs, lim, plan);
    if RowsFit(fr, rs, lim) {
      forall j | 0 <= j < |plan|
        ensures Fits(fr, rs, lim, plan[j], j)
      {
        if j > 0 {
          LaterMessageFits(fr, rs, lim, plan, j);
        }
      }
    }
    if forall j :: 0 <= j < |plan| ==> Fits(fr, rs, lim, plan[j], j) {
      forall row | row in AllRows(rs, |rs|)
        ensures RowFits(fr, rs, lim, row, 1)
      {
        FittingRow(fr, rs, lim, plan, row);
      }
    }
  }
}
