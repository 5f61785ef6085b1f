/**
 The loop of pack (infra/refused-apps/report.go) over rendered sections: rows go into tables under their
 section's heading, and tables into messages that keep to a limit of blocks and a limit of runes.
 */
module PackingTables {
  /** A rendered section: its heading, note and table start, the blocks these take, and its rows. */
  datatype Rendered = Rendered(head: string, blocks: nat, rows: seq<string>)

  datatype Limits = Limits(blocks: int, runes: int)

  /** What surrounds the rows: the runes of a first message before any table, of a later one, and the end of a table. */
  datatype Frame = Frame(first: nat, later: nat, end: string)

  function Concat(parts: seq<string>): string {
    if parts == [] then "" else Concat(parts[..|parts| - 1]) + parts[|parts| - 1]
  }

  // ----- plans -----

  /** A table: rows lo..hi of a section, under its heading. */
  datatype Table = Table(sec: nat, lo: nat, hi: nat)

  predicate IsTable(rs: seq<Rendered>, t: Table) {
    t.sec < |rs| && t.lo < t.hi <= |rs[t.sec].rows|
  }

  predicate IsPlan(rs: seq<Rendered>, ts: seq<Table>) {
    forall i :: 0 <= i < |ts| ==> IsTable(rs, ts[i])
  }

  function TableText(rs: seq<Rendered>, end: string, t: Table): string {
    if !IsTable(rs, t) then "" else rs[t.sec].head + Concat(rs[t.sec].rows[t.lo..t.hi]) + end
  }

  function TableBlocks(rs: seq<Rendered>, t: Table): nat {
    if !IsTable(rs, t) then 0 else rs[t.sec].blocks + (t.hi - t.lo)
  }

  function Body(rs: seq<Rendered>, end: string, ts: seq<Table>): string {
    if ts == [] then "" else Body(rs, end, ts[..|ts| - 1]) + TableText(rs, end, ts[|ts| - 1])
  }

  /** The blocks of a message: its first paragraph, and for each table what its heading takes and its rows. */
  function Blocks(rs: seq<Rendered>, ts: seq<Table>): nat {
    if ts == [] then 1 else Blocks(rs, ts[..|ts| - 1]) + TableBlocks(rs, ts[|ts| - 1])
  }

  /** Rows lo..hi of a section, as pairs of section and row. */
  function RowsOf(sec: nat, lo: nat, hi: nat): seq<(nat, nat)> {
    if hi <= lo then [] else RowsOf(sec, lo, hi - 1) + [(sec, hi - 1)]
  }

  /** The rows a message shows. */
  function Shown(ts: seq<Table>): seq<(nat, nat)> {
    if ts == [] then []
    else var t := ts[|ts| - 1]; Shown(ts[..|ts| - 1]) + RowsOf(t.sec, t.lo, t.hi)
  }

  function ShownInAll(plan: seq<seq<Table>>): seq<(nat, nat)> {
    if plan == [] then [] else ShownInAll(plan[..|plan| - 1]) + Shown(plan[|plan| - 1])
  }

  /** Every row of the first n sections, in order. */
  function AllRows(rs: seq<Rendered>, n: nat): seq<(nat, nat)>
    requires n <= |rs|
  {
    if n == 0 then [] else AllRows(rs, n - 1) + RowsOf(n - 1, 0, |rs[n - 1].rows|)
  }

  /** The runes counted for message i. */
  function Room(fr: Frame, rs: seq<Rendered>, ts: seq<Table>, i: nat): nat {
    (if i == 0 then fr.first else fr.later) + |Body(rs, fr.end, ts)|
  }

  predicate Fits(fr: Frame, rs: seq<Rendered>, lim: Limits, ts: seq<Table>, i: nat) {
    Blocks(rs, ts) <= lim.blocks && Room(fr, rs, ts, i) <= lim.runes
  }

  /** One table with one row. */
  predicate Lone(ts: seq<Table>) {
    |ts| == 1 && ts[0].hi == ts[0].lo + 1
  }

  lemma {:induction false} RowsSplit(sec: nat, lo: nat, mid: nat, hi: nat)
    requires lo <= mid <= hi
    ensures RowsOf(sec, lo, hi) == RowsOf(sec, lo, mid) + RowsOf(sec, mid, hi)
    decreases hi
  {
    if mid < hi {
      RowsSplit(sec, lo, mid, hi - 1);
    }
  }

  lemma OneMoreTable(rs: seq<Rendered>, end: string, ts: seq<Table>, t: Table)
    ensures Body(rs, end, ts + [t]) == Body(rs, end, ts) + TableText(rs, end, t)
    ensures Blocks(rs, ts + [t]) == Blocks(rs, ts) + TableBlocks(rs, t)
    ensures Shown(ts + [t]) == Shown(ts) + RowsOf(t.sec, t.lo, t.hi)
  {
    assert (ts + [t])[..|ts|] == ts;
  }

  lemma AppendToBoth<T>(a: seq<T>, b: seq<T>, x: seq<T>, y: seq<T>, r: seq<T>)
    requires a + b == x + y
    ensures a + (b + r) == x + (y + r)
  {
    assert a + (b + r) == (a + b) + r && x + (y + r) == (x + y) + r;
  }

  // ----- the loop's state -----

  /** The message being filled, and what the loop counts of it. */
  datatype Draft = Draft(cur: string, blocks: int, runes: int, chunks: nat)

  /** A finished message: its text, and the limits it keeps to unless it is one table with one row. */
  ghost predicate Finished(fr: Frame, rs: seq<Rendered>, lim: Limits, bodies: seq<string>, plan: seq<seq<Table>>, j: nat) {
    j < |plan| && j < |bodies| && IsPlan(rs, plan[j]) && bodies[j] == Body(rs, fr.end, plan[j]) && plan[j] != [] && (Lone(plan[j]) || Fits(fr, rs, lim, plan[j], j))
  }

  ghost predicate Filling(fr: Frame, rs: seq<Rendered>, lim: Limits, n: nat, d: Draft, ts: seq<Table>) {
    && IsPlan(rs, ts) && d.cur == Body(rs, fr.end, ts) && d.blocks == Blocks(rs, ts) && d.runes == Room(fr, rs, ts, n) && d.chunks == |ts|
    && (ts != [] ==> Lone(ts) || Fits(fr, rs, lim, ts, n))
  }

  /** The tables so far show exactly the rows before row p of section i, in order. */
  ghost predicate Covers(rs: seq<Rendered>, plan: seq<seq<Table>>, ts: seq<Table>, i: nat, p: nat) {
    i <= |rs| && ShownInAll(plan) + Shown(ts) == AllRows(rs, i) + RowsOf(i, 0, p)
  }

  ghost predicate Sound(fr: Frame, rs: seq<Rendered>, lim: Limits, bodies: seq<string>, d: Draft, plan: seq<seq<Table>>, ts: seq<Table>, i: nat, p: nat) {
    && |bodies| == |plan|
    && (forall j :: 0 <= j < |plan| ==> Finished(fr, rs, lim, bodies, plan, j))
    && Filling(fr, rs, lim, |plan|, d, ts)
    && Covers(rs, plan, ts, i, p)
  }

  lemma FlushCovers(rs: seq<Rendered>, plan: seq<seq<Table>>, ts: seq<Table>, i: nat, p: nat)
    requires Covers(rs, plan, ts, i, p)
    ensures Covers(rs, plan + [ts], [], i, p)
  {
    assert (plan + [ts])[..|plan|] == plan;
    assert ShownInAll(plan + [ts]) + Shown([]) == ShownInAll(plan) + Shown(ts);
  }

  lemma FlushIsSound(fr: Frame, rs: seq<Rendered>, lim: Limits, bodies: seq<string>, d: Draft, plan: seq<seq<Table>>, ts: seq<Table>, i: nat, p: nat)
    requires Sound(fr, rs, lim, bodies, d, plan, ts, i, p) && d.chunks > 0
    ensures Sound(fr, rs, lim, bodies + [d.cur], Draft("", 1, fr.later, 0), plan + [ts], [], i, p)
  {
    FlushCovers(rs, plan, ts, i, p);
    forall j | 0 <= j < |plan| + 1
      ensures Finished(fr, rs, lim, bodies + [d.cur], plan + [ts], j)
    {
      assert j < |plan| ==> Finished(fr, rs, lim, bodies, plan, j);
    }
  }

  /** What the loop adds for one more table, over the limits only when it is the first and has one row. */
  ghost predicate Adds(fr: Frame, rs: seq<Rendered>, lim: Limits, d: Draft, t: Table, d': Draft) {
    && IsTable(rs, t)
    && d'.cur == d.cur + TableText(rs, fr.end, t) && d'.chunks == d.chunks + 1
    && d'.blocks == d.blocks + TableBlocks(rs, t) && d'.runes == d.runes + |TableText(rs, fr.end, t)|
    && ((d'.blocks <= lim.blocks && d'.runes <= lim.runes) || (d.chunks == 0 && t.hi == t.lo + 1))
  }

  lemma TableCovers(rs: seq<Rendered>, plan: seq<seq<Table>>, ts: seq<Table>, i: nat, p: nat, k: nat)
    requires Covers(rs, plan, ts, i, p)
    ensures Covers(rs, plan, ts + [Table(i, p, p + k)], i, p + k)
  {
    OneMoreTable(rs, "", ts, Table(i, p, p + k));
    RowsSplit(i, 0, p, p + k);
    AppendToBoth(ShownInAll(plan), Shown(ts), AllRows(rs, i), RowsOf(i, 0, p), RowsOf(i, p, p + k));
  }

  lemma TableIsSound(fr: Frame, rs: seq<Rendered>, lim: Limits, bodies: seq<string>, d: Draft, plan: seq<seq<Table>>, ts: seq<Table>, i: nat, p: nat, k: nat, d': Draft)
    requires Sound(fr, rs, lim, bodies, d, plan, ts, i, p) && Adds(fr, rs, lim, d, Table(i, p, p + k), d')
    ensures Sound(fr, rs, lim, bodies, d', plan, ts + [Table(i, p, p + k)], i, p + k)
  {
    TableCovers(rs, plan, ts, i, p, k);
    OneMoreTable(rs, fr.end, ts, Table(i, p, p + k));
  }

  lemma SectionDone(fr: Frame, rs: seq<Rendered>, lim: Limits, bodies: seq<string>, d: Draft, plan: seq<seq<Table>>, ts: seq<Table>, i: nat)
    requires i < |rs| && Sound(fr, rs, lim, bodies, d, plan, ts, i, |rs[i].rows|)
    ensures Sound(fr, rs, lim, bodies, d, plan, ts, i + 1, 0)
  {
  }

  // ----- no message is left before it is full -----

  /** One more row: in the last table if it goes on there, or in a table of its own. */
  function AddRow(ts: seq<Table>, row: (nat, nat)): seq<Table> {
    if ts != [] && ts[|ts| - 1].sec == row.0 && ts[|ts| - 1].hi == row.1
    then ts[|ts| - 1 := ts[|ts| - 1].(hi := row.1 + 1)]
    else ts + [Table(row.0, row.1, row.1 + 1)]
  }

  /** The row after message j: the first of the next message, or the next one to be placed. */
  function NextRow(plan: seq<seq<Table>>, ts: seq<Table>, j: nat, i: nat, p: nat): (nat, nat) {
    if j + 1 < |plan| then (if plan[j + 1] == [] then (i, p) else (plan[j + 1][0].sec, plan[j + 1][0].lo))
    else if ts == [] then (i, p)
    else (ts[0].sec, ts[0].lo)
  }

  /** The tables of a message are of different sections, in order. */
  ghost predicate InOrder(ts: seq<Table>) {
    forall q, r :: 0 <= q < r < |ts| ==> ts[q].sec < ts[r].sec
  }

  ghost predicate Before(ts: seq<Table>, i: nat) {
    forall q :: 0 <= q < |ts| ==> ts[q].sec < i
  }

  ghost predicate Full(fr: Frame, rs: seq<Rendered>, lim: Limits, ts: seq<Table>, j: nat, row: (nat, nat)) {
    !Fits(fr, rs, lim, AddRow(ts, row), j)
  }

  /** Message j is full: the row after it did not fit. */
  ghost predicate Left(fr: Frame, rs: seq<Rendered>, lim: Limits, plan: seq<seq<Table>>, ts: seq<Table>, j: nat, i: nat, p: nat) {
    j < |plan| && plan[j] != [] && InOrder(plan[j]) && Full(fr, rs, lim, plan[j], j, NextRow(plan, ts, j, i, p))
  }

  /** Every finished message is full, and the one being filled has tables of earlier sections than `before` only. */
  ghost predicate Tight(fr: Frame, rs: seq<Rendered>, lim: Limits, plan: seq<seq<Table>>, ts: seq<Table>, i: nat, p: nat, before: nat) {
    && (forall j :: 0 <= j < |plan| ==> Left(fr, rs, lim, plan, ts, j, i, p))
    && InOrder(ts) && Before(ts, before)
  }

  lemma FlushIsTight(fr: Frame, rs: seq<Rendered>, lim: Limits, plan: seq<seq<Table>>, ts: seq<Table>, i: nat, p: nat, before: nat, i': nat, p': nat)
    requires ts != [] && Tight(fr, rs, lim, plan, ts, i, p, before) && Full(fr, rs, lim, ts, |plan|, (i', p'))
    ensures Tight(fr, rs, lim, plan + [ts], [], i', p', i')
  {
    hide Full, InOrder, Before;
    var after := plan + [ts];
    forall j | 0 <= j < |after|
      ensures Left(fr, rs, lim, after, [], j, i', p')
    {
      if j < |plan| {
        assert Left(fr, rs, lim, plan, ts, j, i, p) && (j + 1 < |plan| ==> Left(fr, rs, lim, plan, ts, j + 1, i, p));
        assert NextRow(after, [], j, i', p') == NextRow(plan, ts, j, i, p);
      }
    }
    NoTables(i');
  }

  lemma NoTables(i: nat)
    ensures InOrder([]) && Before([], i)
  {
  }

  /** A table added to the message: the messages before it are as full as they were. */
  lemma TableIsTight(fr: Frame, rs: seq<Rendered>, lim: Limits, plan: seq<seq<Table>>, ts: seq<Table>, i: nat, p: nat, k: nat)
    requires Tight(fr, rs, lim, plan, ts, i, p, i)
    ensures Tight(fr, rs, lim, plan, ts + [Table(i, p, p + k)], i, p + k, i + 1)
  {
    hide Full;
    var after, next := ts + [Table(i, p, p + k)], p + k;
    forall j | 0 <= j < |plan|
      ensures Left(fr, rs, lim, plan, after, j, i, next)
    {
      assert Left(fr, rs, lim, plan, ts, j, i, p) && (j + 1 < |plan| ==> Left(fr, rs, lim, plan, ts, j + 1, i, p));
      assert NextRow(plan, after, j, i, next) == NextRow(plan, ts, j, i, p);
    }
  }

  lemma SectionIsTight(fr: Frame, rs: seq<Rendered>, lim: Limits, plan: seq<seq<Table>>, ts: seq<Table>, i: nat, p: nat)
    requires Tight(fr, rs, lim, plan, ts, i, p, i + 1) && (ts == [] ==> plan == [])
    ensures Tight(fr, rs, lim, plan, ts, i + 1, 0, i + 1)
  {
    hide Full, InOrder, Before;
    var next := i + 1;
    forall j | 0 <= j < |plan|
      ensures Left(fr, rs, lim, plan, ts, j, next, 0)
    {
      assert Left(fr, rs, lim, plan, ts, j, i, p) && (j + 1 < |plan| ==> Left(fr, rs, lim, plan, ts, j + 1, i, p));
      assert NextRow(plan, ts, j, next, 0) == NextRow(plan, ts, j, i, p);
    }
  }

  lemma TightIsLoose(fr: Frame, rs: seq<Rendered>, lim: Limits, plan: seq<seq<Table>>, ts: seq<Table>, i: nat, p: nat)
    requires Tight(fr, rs, lim, plan, ts, i, p, i)
    ensures Tight(fr, rs, lim, plan, ts, i, p, i + 1)
  {
    hide Full, Left;
  }

  lemma OneMoreRow(rows: seq<string>, lo: nat, hi: nat)
    requires lo <= hi < |rows|
    ensures Concat(rows[lo..hi + 1]) == Concat(rows[lo..hi]) + rows[hi]
  {
    assert rows[lo..hi + 1][..hi - lo] == rows[lo..hi];
  }

  /** One row more in the last table takes a block and the row's runes. */
  lemma MoreOfTable(rs: seq<Rendered>, end: string, ts: seq<Table>, t: Table)
    requires IsTable(rs, t) && IsTable(rs, t.(hi := t.hi + 1))
    ensures Blocks(rs, ts + [t.(hi := t.hi + 1)]) == Blocks(rs, ts + [t]) + 1
    ensures |Body(rs, end, ts + [t.(hi := t.hi + 1)])| == |Body(rs, end, ts + [t])| + |rs[t.sec].rows[t.hi]|
  {
    hide Body, Blocks, Concat, Shown;
    OneMoreTable(rs, end, ts, t);
    OneMoreTable(rs, end, ts, t.(hi := t.hi + 1));
    OneMoreRow(rs[t.sec].rows, t.lo, t.hi);
  }

  /** A table that was left with rows of its section to come had no room for the next one. */
  lemma TableIsFull(fr: Frame, rs: seq<Rendered>, lim: Limits, j: nat, d: Draft, ts: seq<Table>, i: nat, p: nat, k: nat)
    requires i < |rs| && k > 0 && p + k < |rs[i].rows| && Filling(fr, rs, lim, j, d, ts + [Table(i, p, p + k)])
    requires d.blocks + 1 > lim.blocks || d.runes + |rs[i].rows[p + k]| > lim.runes
    ensures Full(fr, rs, lim, ts + [Table(i, p, p + k)], j, (i, p + k))
  {
    hide Body, Blocks;
    var t := Table(i, p, p + k);
    MoreOfTable(rs, fr.end, ts, t);
    assert AddRow(ts + [t], (i, p + k)) == ts + [t.(hi := p + k + 1)];
  }

  lemma RowTable(rs: seq<Rendered>, end: string, i: nat, p: nat)
    requires i < |rs| && p < |rs[i].rows|
    ensures TableBlocks(rs, Table(i, p, p + 1)) == rs[i].blocks + 1
    ensures |TableText(rs, end, Table(i, p, p + 1))| == |rs[i].head| + |rs[i].rows[p]| + |end|
  {
    OneMoreRow(rs[i].rows, p, p);
    assert rs[i].rows[p..p] == [] && Concat([]) == "";
  }

  /** A message that was left for a section's next table had no room for the table with one row. */
  lemma MessageIsFull(fr: Frame, rs: seq<Rendered>, lim: Limits, j: nat, d: Draft, ts: seq<Table>, i: nat, p: nat)
    requires i < |rs| && p < |rs[i].rows| && Filling(fr, rs, lim, j, d, ts) && Before(ts, i)
    requires d.blocks + rs[i].blocks + 1 > lim.blocks || d.runes + |rs[i].head| + |fr.end| + |rs[i].rows[p]| > lim.runes
    ensures Full(fr, rs, lim, ts, j, (i, p))
  {
    hide Body, Blocks, TableText, TableBlocks, Shown;
    OneMoreTable(rs, fr.end, ts, Table(i, p, p + 1));
    RowTable(rs, fr.end, i, p);
    assert AddRow(ts, (i, p)) == ts + [Table(i, p, p + 1)];
  }

  /** The plan is greedy: every message but the last had no room for the row that begins the next, and shows a section in one table. */
  ghost predicate Greedy(fr: Frame, rs: seq<Rendered>, lim: Limits, plan: seq<seq<Table>>) {
    && (forall j :: 0 <= j < |plan| ==> InOrder(plan[j]))
    && (forall j :: 0 <= j < |plan| - 1 ==> IsFull(fr, rs, lim, plan, j))
  }

  ghost predicate IsFull(fr: Frame, rs: seq<Rendered>, lim: Limits, plan: seq<seq<Table>>, j: nat) {
    j + 1 < |plan| && plan[j + 1] != [] && Full(fr, rs, lim, plan[j], j, (plan[j + 1][0].sec, plan[j + 1][0].lo))
  }

  lemma LastIsGreedy(fr: Frame, rs: seq<Rendered>, lim: Limits, plan: seq<seq<Table>>, ts: seq<Table>, i: nat)
    requires Tight(fr, rs, lim, plan, ts, i, 0, i) && (ts == [] ==> plan == [])
    ensures Greedy(fr, rs, lim, plan + [ts])
  {
    hide Full, InOrder, Before;
    var all := plan + [ts];
    forall j | 0 <= j < |all|
      ensures InOrder(all[j]) && (j < |plan| ==> IsFull(fr, rs, lim, all, j))
    {
      if j < |plan| {
        assert Left(fr, rs, lim, plan, ts, j, i, 0);
        assert j + 1 < |plan| ==> Left(fr, rs, lim, plan, ts, j + 1, i, 0);
      }
    }
  }

  // ----- the loop -----

  /** How many of the rows go in one more table, and the counts with them. */
  method Fill(rows: seq<string>, lim: Limits, blocks: int, runes: int) returns (k: nat, b: int, n: int)
    ensures k <= |rows| && b == blocks + k && n == runes + |Concat(rows[..k])|
    ensures k > 0 ==> b <= lim.blocks && n <= lim.runes
    ensures k < |rows| ==> b + 1 > lim.blocks || n + |rows[k]| > lim.runes
  {
    k, b, n := 0, blocks, runes;
    while k < |rows| && b + 1 <= lim.blocks && n + |rows[k]| <= lim.runes
      invariant k <= |rows| && b == blocks + k && n == runes + |Concat(rows[..k])|
      invariant k > 0 ==> b <= lim.blocks && n <= lim.runes
    {
      b, n := b + 1, n + |rows[k]|;
      assert rows[..k + 1][..k] == rows[..k];
      k := k + 1;
    }
  }

  method WriteTable(cur: string, head: string, rows: seq<string>, end: string) returns (text: string)
    ensures text == cur + (head + Concat(rows) + end)
  {
    text := cur + head;
    var i := 0;
    while i < |rows|
      invariant 0 <= i <= |rows| && text == cur + (head + Concat(rows[..i]))
    {
      text := text + rows[i];
      assert rows[..i + 1][..i] == rows[..i];
      i := i + 1;
    }
    assert rows[..i] == rows;
    text := text + end;
  }

  /** One round of the inner loop: a further table with k rows, or k == 0 to ask for a new message first. */
  method NextTable(fr: Frame, ghost rs: seq<Rendered>, lim: Limits, i: nat, ghost p: nat, r: Rendered, rows: seq<string>, d: Draft) returns (k: nat, d': Draft)
    requires i < |rs| && r == rs[i] && p < |r.rows| && rows == r.rows[p..]
    ensures k == 0 ==> d.chunks > 0 && d' == d
    ensures k == 0 ==> d.blocks + r.blocks + 1 > lim.blocks || d.runes + |r.head| + |fr.end| + |rows[0]| > lim.runes
    ensures k > 0 ==> p + k <= |r.rows| && Adds(fr, rs, lim, d, Table(i, p, p + k), d')
    ensures 0 < k < |rows| ==> d'.blocks + 1 > lim.blocks || d'.runes + |rows[k]| > lim.runes
  {
    var b, n;
    k, b, n := Fill(rows, lim, d.blocks + r.blocks, d.runes + |r.head| + |fr.end|);
    if k == 0 {
      if d.chunks > 0 {
        return 0, d;
      }
      k, b, n := 1, b + 1, n + |rows[0]|;
      assert rows[..1] == [rows[0]] && [rows[0]][..0] == [];
    }
    var text := WriteTable(d.cur, r.head, rows[..k], fr.end);
    assert r.rows[p..p + k] == rows[..k];
    d' := Draft(text, b, n, d.chunks + 1);
  }

  lemma SoundIsFilling(fr: Frame, rs: seq<Rendered>, lim: Limits, bodies: seq<string>, d: Draft, plan: seq<seq<Table>>, ts: seq<Table>, i: nat, p: nat)
    requires Sound(fr, rs, lim, bodies, d, plan, ts, i, p)
    ensures Filling(fr, rs, lim, |plan|, d, ts) && (d.chunks > 0 <==> ts != [])
  {
  }

  /** How full the messages are after rows up to p of section i: a section that goes on goes on in a new message. */
  ghost predicate Packing(fr: Frame, rs: seq<Rendered>, lim: Limits, plan: seq<seq<Table>>, ts: seq<Table>, i: nat, p: nat) {
    i < |rs| && Tight(fr, rs, lim, plan, ts, i, p, if p < |rs[i].rows| then i else i + 1)
  }

  lemma AddedIsPacking(fr: Frame, rs: seq<Rendered>, lim: Limits, e: Draft, plan: seq<seq<Table>>, ts: seq<Table>, i: nat, p: nat, k: nat)
    requires i < |rs| && 0 < k && p + k <= |rs[i].rows| && Tight(fr, rs, lim, plan, ts, i, p, i)
    requires Filling(fr, rs, lim, |plan|, e, ts + [Table(i, p, p + k)])
    requires p + k < |rs[i].rows| ==> e.blocks + 1 > lim.blocks || e.runes + |rs[i].rows[p + k]| > lim.runes
    ensures if p + k < |rs[i].rows| then Packing(fr, rs, lim, plan + [ts + [Table(i, p, p + k)]], [], i, p + k)
            else Packing(fr, rs, lim, plan, ts + [Table(i, p, p + k)], i, p + k)
  {
    hide Tight, Full, Filling;
    var after := ts + [Table(i, p, p + k)];
    TableIsTight(fr, rs, lim, plan, ts, i, p, k);
    if p + k < |rs[i].rows| {
      TableIsFull(fr, rs, lim, |plan|, e, ts, i, p, k);
      FlushIsTight(fr, rs, lim, plan, after, i, p + k, i + 1, i, p + k);
    }
  }

  /** Add a table of k rows, and begin a new message when rows of the section are left. */
  method AddTable(fr: Frame, ghost rs: seq<Rendered>, lim: Limits, ghost i: nat, ghost p: nat, k: nat, more: bool, bodies: seq<string>, d: Draft, e: Draft,
                  ghost plan: seq<seq<Table>>, ghost ts: seq<Table>)
    returns (bodies': seq<string>, d': Draft, ghost plan': seq<seq<Table>>, ghost ts': seq<Table>)
    requires Sound(fr, rs, lim, bodies, d, plan, ts, i, p) && Adds(fr, rs, lim, d, Table(i, p, p + k), e)
    requires i < |rs| && 0 < k && p + k <= |rs[i].rows| && Tight(fr, rs, lim, plan, ts, i, p, i) && (more <==> p + k < |rs[i].rows|)
    requires more ==> e.blocks + 1 > lim.blocks || e.runes + |rs[i].rows[p + k]| > lim.runes
    ensures Sound(fr, rs, lim, bodies', d', plan', ts', i, p + k) && (!more ==> ts' != []) && Packing(fr, rs, lim, plan', ts', i, p + k)
  {
    hide Sound, Tight, Packing, Filling, Adds;
    TableIsSound(fr, rs, lim, bodies, d, plan, ts, i, p, k, e);
    bodies', d', plan', ts' := bodies, e, plan, ts + [Table(i, p, p + k)];
    SoundIsFilling(fr, rs, lim, bodies', d', plan', ts', i, p + k);
    AddedIsPacking(fr, rs, lim, e, plan, ts, i, p, k);
    if more {
      FlushIsSound(fr, rs, lim, bodies', d', plan', ts', i, p + k);
      bodies', d', plan', ts' := bodies' + [d'.cur], Draft("", 1, fr.later, 0), plan' + [ts'], [];
    }
  }

  lemma LeftIsPacking(fr: Frame, rs: seq<Rendered>, lim: Limits, d: Draft, plan: seq<seq<Table>>, ts: seq<Table>, i: nat, p: nat)
    requires i < |rs| && p < |rs[i].rows| && Tight(fr, rs, lim, plan, ts, i, p, i) && Filling(fr, rs, lim, |plan|, d, ts) && ts != []
    requires d.blocks + rs[i].blocks + 1 > lim.blocks || d.runes + |rs[i].head| + |fr.end| + |rs[i].rows[p]| > lim.runes
    ensures Packing(fr, rs, lim, plan + [ts], [], i, p)
  {
    hide Full, Filling, InOrder, Before, Left;
    MessageIsFull(fr, rs, lim, |plan|, d, ts, i, p);
    FlushIsTight(fr, rs, lim, plan, ts, i, p, i, i, p);
  }

  /** One turn of the loop over a section's rows: a table, or a new message for it. */
  method PackRows(fr: Frame, ghost rs: seq<Rendered>, lim: Limits, i: nat, r: Rendered, rows: seq<string>, ghost p: nat, bodies: seq<string>, d: Draft,
                  ghost plan: seq<seq<Table>>, ghost ts: seq<Table>)
    returns (k: nat, bodies': seq<string>, d': Draft, ghost plan': seq<seq<Table>>, ghost ts': seq<Table>)
    requires i < |rs| && r == rs[i] && p < |r.rows| && rows == r.rows[p..] && Sound(fr, rs, lim, bodies, d, plan, ts, i, p)
    requires Tight(fr, rs, lim, plan, ts, i, p, i)
    ensures p + k <= |r.rows| && Sound(fr, rs, lim, bodies', d', plan', ts', i, p + k) && Packing(fr, rs, lim, plan', ts', i, p + k)
    ensures k == 0 ==> d'.chunks == 0 < d.chunks
    ensures k == |rows| ==> ts' != []
  {
    hide Sound, Tight, Packing, Filling, Adds;
    var e;
    k, e := NextTable(fr, rs, lim, i, p, r, rows, d);
    if k == 0 {
      SoundIsFilling(fr, rs, lim, bodies, d, plan, ts, i, p);
      LeftIsPacking(fr, rs, lim, d, plan, ts, i, p);
      FlushIsSound(fr, rs, lim, bodies, d, plan, ts, i, p);
      bodies', d', plan', ts' := bodies + [d.cur], Draft("", 1, fr.later, 0), plan + [ts], [];
    } else {
      bodies', d', plan', ts' := AddTable(fr, rs, lim, i, p, k, k < |rows|, bodies, d, e, plan, ts);
    }
  }

  /** pack's loop over one section's rows. */
  method PackSection(fr: Frame, ghost rs: seq<Rendered>, lim: Limits, i: nat, r: Rendered, bodies: seq<string>, d: Draft, ghost plan: seq<seq<Table>>, ghost ts: seq<Table>)
    returns (bodies': seq<string>, d': Draft, ghost plan': seq<seq<Table>>, ghost ts': seq<Table>)
    requires i < |rs| && r == rs[i] && Sound(fr, rs, lim, bodies, d, plan, ts, i, 0) && (ts == [] ==> plan == [])
    requires Tight(fr, rs, lim, plan, ts, i, 0, i)
    ensures Sound(fr, rs, lim, bodies', d', plan', ts', i + 1, 0) && (ts' == [] ==> plan' == []) && Tight(fr, rs, lim, plan', ts', i + 1, 0, i + 1)
  {
    hide Sound, Tight;
    var rows := r.rows;
    ghost var p := 0;
    bodies', d', plan', ts' := bodies, d, plan, ts;
    TightIsLoose(fr, rs, lim, plan, ts, i, 0);
    while |rows| > 0
      invariant p <= |r.rows| && rows == r.rows[p..]
      invariant Sound(fr, rs, lim, bodies', d', plan', ts', i, p) && Packing(fr, rs, lim, plan', ts', i, p)
      invariant ts' == [] && rows == [] ==> plan' == []
      decreases |rows|, d'.chunks
    {
      var k;
      k, bodies', d', plan', ts' := PackRows(fr, rs, lim, i, r, rows, p, bodies', d', plan', ts');
      rows, p := rows[k..], p + k;
    }
    SectionDone(fr, rs, lim, bodies', d', plan', ts', i);
    SectionIsTight(fr, rs, lim, plan', ts', i, p);
  }

  // ----- the result -----

  /** A message keeps to the limits or is one table with one row, unless it is the one message of a report without rows. */
  ghost predicate KeepsTo(fr: Frame, rs: seq<Rendered>, lim: Limits, plan: seq<seq<Table>>, j: nat) {
    && j < |plan| && IsPlan(rs, plan[j])
    && (if plan[j] == [] then |plan| == 1 else Lone(plan[j]) || Fits(fr, rs, lim, plan[j], j))
  }

  ghost predicate IsBody(rs: seq<Rendered>, end: string, plan: seq<seq<Table>>, bodies: seq<string>, j: nat) {
    j < |plan| && j < |bodies| && bodies[j] == Body(rs, end, plan[j])
  }

  /** Every row is shown once, in order, under its own heading, and every message keeps to the limits as far as it can. */
  ghost predicate Packed(fr: Frame, rs: seq<Rendered>, lim: Limits, plan: seq<seq<Table>>) {
    && |plan| >= 1
    && ShownInAll(plan) == AllRows(rs, |rs|)
    && forall j :: 0 <= j < |plan| ==> KeepsTo(fr, rs, lim, plan, j)
  }

  /** A report with rows puts one into its first message, also when none fits beside what that message begins with. */
  lemma FirstMessageTakesARow(fr: Frame, rs: seq<Rendered>, lim: Limits, plan: seq<seq<Table>>)
    requires Packed(fr, rs, lim, plan) && AllRows(rs, |rs|) != []
    ensures plan[0] != []
  {
    assert KeepsTo(fr, rs, lim, plan, 0);
  }

  lemma LastCovers(rs: seq<Rendered>, plan: seq<seq<Table>>, ts: seq<Table>)
    requires Covers(rs, plan, ts, |rs|, 0)
    ensures ShownInAll(plan + [ts]) == AllRows(rs, |rs|)
  {
    assert (plan + [ts])[..|plan|] == plan;
  }

  lemma LastIsSound(fr: Frame, rs: seq<Rendered>, lim: Limits, bodies: seq<string>, d: Draft, plan: seq<seq<Table>>, ts: seq<Table>)
    requires Sound(fr, rs, lim, bodies, d, plan, ts, |rs|, 0) && (ts == [] ==> plan == [])
    ensures Packed(fr, rs, lim, plan + [ts]) && |bodies| == |plan|
    ensures forall j :: 0 <= j < |plan| + 1 ==> IsBody(rs, fr.end, plan + [ts], bodies + [d.cur], j)
  {
    LastCovers(rs, plan, ts);
    forall j | 0 <= j < |plan| + 1
      ensures IsBody(rs, fr.end, plan + [ts], bodies + [d.cur], j) && KeepsTo(fr, rs, lim, plan + [ts], j)
    {
      assert j < |plan| ==> Finished(fr, rs, lim, bodies, plan, j);
    }
  }

  lemma NothingYet(fr: Frame, rs: seq<Rendered>, lim: Limits)
    ensures Sound(fr, rs, lim, [], Draft("", 1, fr.first, 0), [], [], 0, 0)
  {
  }

  lemma NothingIsTight(fr: Frame, rs: seq<Rendered>, lim: Limits)
    ensures Tight(fr, rs, lim, [], [], 0, 0, 0)
  {
  }

  /** pack's loop over the sections. */
  method PackSections(fr: Frame, rs: seq<Rendered>, lim: Limits) returns (bodies: seq<string>, ghost plan: seq<seq<Table>>)
    ensures Packed(fr, rs, lim, plan) && Greedy(fr, rs, lim, plan) && |bodies| == |plan|
    ensures forall j :: 0 <= j < |plan| ==> IsBody(rs, fr.end, plan, bodies, j)
  {
    hide Sound, Tight, Greedy, Packed, IsBody, Body;
    var d := Draft("", 1, fr.first, 0);
    ghost var ts: seq<Table> := [];
    bodies, plan := [], [];
    NothingYet(fr, rs, lim);
    NothingIsTight(fr, rs, lim);
    var i := 0;
    while i < |rs|
      invariant 0 <= i <= |rs|
      invariant Sound(fr, rs, lim, bodies, d, plan, ts, i, 0) && (ts == [] ==> plan == []) && Tight(fr, rs, lim, plan, ts, i, 0, i)
    {
      bodies, d, plan, ts := PackSection(fr, rs, lim, i, rs[i], bodies, d, plan, ts);
      i := i + 1;
    }
    LastIsSound(fr, rs, lim, bodies, d, plan, ts);
    LastIsGreedy(fr, rs, lim, plan, ts, |rs|);
    bodies, plan := bodies + [d.cur], plan + [ts];
  }
}
