/**
 Packing the refused-apps report into messages (infra/refused-apps/report.go): the rows of every section go
 into tables under the section's heading, and the tables into messages that keep to a limit of blocks and a
 limit of runes. A string is a sequence of runes.
 */
module Packing {
  import opened ReportText
  import opened PackingTables
  import opened PackingExact

  const PART_ROOM: nat := 32

  // ----- messages -----

  function Rendering(s: Section): Rendered {
    Rendered(Head(s), if s.note == "" then 3 else 4, RowTexts(s.rows))
  }

  function Renderings(sections: seq<Section>): (rs: seq<Rendered>)
    ensures |rs| == |sections| && forall i :: 0 <= i < |rs| ==> rs[i] == Rendering(sections[i])
  {
    seq(|sections|, i requires 0 <= i < |sections| => Rendering(sections[i]))
  }

  function Intro(lead: seq<string>): string {
    Join(seq(|lead|, i requires 0 <= i < |lead| => Escape(lead[i])))
  }

  /** The runes counted before any table: the room for a part number, the paragraph's tags, and in the first message the introduction. */
  function FrameOf(intro: string): Frame {
    Frame(PART_ROOM + |"<p></p>"| + |intro|, PART_ROOM + |"<p></p>"|, TABLE_END)
  }

  function PartText(i: nat, n: nat): string {
    "Part " + Itoa(i + 1) + " of " + Itoa(n)
  }

  /** The first paragraph of message i of n. */
  function First(intro: string, i: nat, n: nat): string {
    Join((if n > 1 then [PartText(i, n)] else []) + (if i == 0 then [intro] else []))
  }

  function Message(intro: string, i: nat, n: nat, body: string): string {
    "<p>" + First(intro, i, n) + "</p>" + body
  }

  lemma PartTextIsShort(i: nat, n: nat)
    requires i < n < 1_000_000_000
    ensures |PartText(i, n)| <= 27
  {
    PartNumbersAreShort(i + 1);
    PartNumbersAreShort(n);
  }

  /** The part number and the break after it never take more than the room kept for them. */
  lemma PartRoomIsEnough(intro: string, i: nat, n: nat, body: string)
    requires i < n < 1_000_000_000
    ensures |Message(intro, i, n, body)| <= (if i == 0 then FrameOf(intro).first else FrameOf(intro).later) + |body|
  {
    PartTextIsShort(i, n);
    var part := PartText(i, n);
    if n > 1 && i == 0 {
      assert [part] + [intro] == [part, intro] && [part, intro][..1] == [part];
      assert Join([part]) == part;
      assert Join([part, intro]) == Join([part, intro][..1]) + "<br>" + intro;
    } else if n > 1 {
      assert [part] + [] == [part];
    } else {
      assert [] + [intro] == [intro];
    }
  }

  /** What a message begins with: the part number if there are several parts, then in the first one the introduction. */
  lemma MessageBegins(intro: string, i: nat, n: nat)
    requires i < n
    ensures First(intro, i, n) == if n == 1 then intro else if i == 0 then PartText(i, n) + "<br>" + intro else PartText(i, n)
  {
    var part := PartText(i, n);
    if n > 1 && i == 0 {
      assert [part] + [intro] == [part, intro] && [part, intro][..1] == [part];
      assert Join([part, intro]) == Join([part]) + "<br>" + intro;
    } else if n > 1 {
      assert [part] + [] == [part];
    } else {
      assert [] + [intro] == [intro];
    }
  }

  // ----- packing -----

  method WriteCells(cells: seq<string>, tag: string, end: string) returns (text: string)
    ensures text == Cells(cells, tag, end)
  {
    text := "";
    var i := 0;
    while i < |cells|
      invariant 0 <= i <= |cells| && text == Cells(cells[..i], tag, end)
    {
      text := text + tag + Escape(cells[i]) + end;
      assert cells[..i + 1][..i] == cells[..i];
      i := i + 1;
    }
    assert cells[..i] == cells;
  }

  method RenderRows(rows: seq<seq<string>>) returns (texts: seq<string>)
    ensures texts == RowTexts(rows)
  {
    texts := [];
    var i := 0;
    while i < |rows|
      invariant 0 <= i <= |rows| && |texts| == i && forall k :: 0 <= k < i ==> texts[k] == RowText(rows[k])
    {
      var cells := WriteCells(rows[i], "<td>", "</td>");
      texts := texts + ["<tr>" + cells + "</tr>"];
      i := i + 1;
    }
  }

  /** render: the section's heading, note and table start, the blocks these take, and its rows. */
  method Render(s: Section) returns (r: Rendered)
    ensures r == Rendering(s)
  {
    var note, blocks := "", 3;
    if s.note != "" {
      note, blocks := "<p>" + Escape(s.note) + "</p>", 4;
    }
    var columns := WriteCells(s.columns, "<th>", "</th>");
    var rows := RenderRows(s.rows);
    r := Rendered("<h4>" + Escape(s.heading) + "</h4>" + note + TABLE_START + "<tr>" + columns + "</tr>", blocks, rows);
  }

  method FirstParagraph(intro: string, i: nat, n: nat) returns (text: string)
    ensures text == First(intro, i, n)
  {
    var first: seq<string> := [];
    if n > 1 {
      first := first + [PartText(i, n)];
    }
    if i == 0 {
      first := first + [intro];
    }
    assert first == (if n > 1 then [PartText(i, n)] else []) + (if i == 0 then [intro] else []);
    text := Join(first);
  }

  /** pack's last loop: each body under its first paragraph. */
  method Titled(intro: string, bodies: seq<string>) returns (msgs: seq<string>)
    ensures |msgs| == |bodies| && forall j :: 0 <= j < |bodies| ==> msgs[j] == Message(intro, j, |bodies|, bodies[j])
  {
    msgs := [];
    var j := 0;
    while j < |bodies|
      invariant 0 <= j <= |bodies| && |msgs| == j
      invariant forall m :: 0 <= m < j ==> msgs[m] == Message(intro, m, |bodies|, bodies[m])
    {
      var first := FirstParagraph(intro, j, |bodies|);
      msgs := msgs + ["<p>" + first + "</p>" + bodies[j]];
      j := j + 1;
    }
  }

  method RenderAll(sections: seq<Section>) returns (rs: seq<Rendered>)
    ensures rs == Renderings(sections)
  {
    rs := [];
    var i := 0;
    while i < |sections|
      invariant 0 <= i <= |sections| && |rs| == i && forall k :: 0 <= k < i ==> rs[k] == Rendering(sections[k])
    {
      var r := Render(sections[i]);
      rs := rs + [r];
      i := i + 1;
    }
  }

  /** Message j shows the plan's tables under its first paragraph. */
  ghost predicate IsMessage(intro: string, sections: seq<Section>, plan: seq<seq<Table>>, msgs: seq<string>, j: nat) {
    j < |plan| && j < |msgs| && msgs[j] == Message(intro, j, |plan|, Body(Renderings(sections), TABLE_END, plan[j]))
  }

  /**
   pack: every row is shown exactly once, in order, in a table under its own heading; every message keeps to both
   limits in the room counted for it, except one that is a single table with a single row, and except the one
   message of a report without rows. No message ends before it is full: the row that begins the next one did not fit.
   */
  method Pack(lead: seq<string>, sections: seq<Section>, lim: Limits) returns (msgs: seq<string>, ghost plan: seq<seq<Table>>)
    ensures Packed(FrameOf(Intro(lead)), Renderings(sections), lim, plan) && Greedy(FrameOf(Intro(lead)), Renderings(sections), lim, plan)
    ensures |msgs| == |plan| && forall j :: 0 <= j < |plan| ==> IsMessage(Intro(lead), sections, plan, msgs, j)
  {
    var intro := Intro(lead);
    var rs := RenderAll(sections);
    var bodies;
    bodies, plan := PackSections(FrameOf(intro), rs, lim);
    msgs := Titled(intro, bodies);
    forall j | 0 <= j < |plan|
      ensures IsMessage(intro, sections, plan, msgs, j)
    {
      assert IsBody(Renderings(sections), TABLE_END, plan, bodies, j);
    }
  }

  /**
   With fewer than 10^9 parts and an introduction that fits, every message keeps to the block and the rune limit,
   except one that is a single table with a single row: in a later message a row that no later message has room for, in
   the first one a row that does not fit beside the introduction, which is not moved on even if a later message had room.
   */
  lemma MessagesKeepToTheLimits(lead: seq<string>, sections: seq<Section>, lim: Limits, plan: seq<seq<Table>>, msgs: seq<string>, j: nat)
    requires Packed(FrameOf(Intro(lead)), Renderings(sections), lim, plan) && j < |plan| < 1_000_000_000
    requires IsMessage(Intro(lead), sections, plan, msgs, j)
    requires Fits(FrameOf(Intro(lead)), Renderings(sections), lim, [], 0)
    ensures || (Blocks(Renderings(sections), plan[j]) <= lim.blocks && |msgs[j]| <= lim.runes)
            || (&& Lone(plan[j]) && !Fits(FrameOf(Intro(lead)), Renderings(sections), lim, plan[j], j)
                && (j > 0 ==> forall m: nat :: m > 0 ==> !Fits(FrameOf(Intro(lead)), Renderings(sections), lim, plan[j], m)))
  {
    assert KeepsTo(FrameOf(Intro(lead)), Renderings(sections), lim, plan, j);
    PartRoomIsEnough(Intro(lead), j, |plan|, Body(Renderings(sections), TABLE_END, plan[j]));
  }

  /**
   What a caller can check before packing: if the report's first row fits beside the introduction, and every row into a
   later message on its own, every message keeps to both limits.
   */
  lemma FittingRowsKeepToTheLimits(lead: seq<string>, sections: seq<Section>, rs: seq<Rendered>, lim: Limits, plan: seq<seq<Table>>, msgs: seq<string>, j: nat)
    requires rs == Renderings(sections) && Packed(FrameOf(Intro(lead)), rs, lim, plan) && j < |plan| < 1_000_000_000
    requires IsMessage(Intro(lead), sections, plan, msgs, j) && RowsFit(FrameOf(Intro(lead)), rs, lim)
    ensures Blocks(rs, plan[j]) <= lim.blocks && |msgs[j]| <= lim.runes
  {
    hide Packed, RowsFit, Message, Body, Blocks, AllRows, Intro, Renderings;
    MessageInItsRoom(FrameOf(Intro(lead)), rs, lim, plan, j);
    PartRoomIsEnough(Intro(lead), j, |plan|, Body(rs, TABLE_END, plan[j]));
  }

  lemma MessageInItsRoom(fr: Frame, rs: seq<Rendered>, lim: Limits, plan: seq<seq<Table>>, j: nat)
    requires Packed(fr, rs, lim, plan) && RowsFit(fr, rs, lim) && j < |plan| && fr.later <= fr.first
    ensures Fits(fr, rs, lim, plan[j], j)
  {
    hide Fits;
    AllMessagesFitExactly(fr, rs, lim, plan);
  }

  // ----- a first message over the limit -----

  lemma {:induction false} PlainText(s: string)
    requires forall i :: 0 <= i < |s| ==> s[i] == 'x'
    ensures Escape(s) == s
  {
    if s != "" {
      PlainText(s[..|s| - 1]);
    }
  }

  /** A report of one row under an introduction of 33 runes. */
  function Lead(): (s: string)
    ensures |s| == 33 && forall i :: 0 <= i < |s| ==> s[i] == 'x'
  {
    seq(33, i => 'x')
  }

  const ONE_ROW := Section("", "", [], [[]])
  const ONLY_ROW := Table(0, 0, 1)

  lemma LeadIsTheIntroduction()
    ensures Intro([Lead()]) == Lead()
  {
    PlainText(Lead());
    assert Join([Lead()]) == Lead();
  }

  /** A limit that leaves a later message just the room its one row takes. */
  function TightLimits(): Limits {
    Limits(5, FrameOf(Lead()).later + |Body(Renderings([ONE_ROW]), TABLE_END, [ONLY_ROW])|)
  }

  lemma OneRowReport()
    ensures AllRows(Renderings([ONE_ROW]), 1) == [(0, 0)]
    ensures Blocks(Renderings([ONE_ROW]), [ONLY_ROW]) == 5
    ensures |Body(Renderings([ONE_ROW]), TABLE_END, [ONLY_ROW])| >= 40
  {
    var rs := Renderings([ONE_ROW]);
    LoneTable(rs, TABLE_END, ONLY_ROW);
    assert IsTable(rs, ONLY_ROW);
    assert AllRows(rs, 0) == [] && RowsOf(0, 0, 0) == [] && RowsOf(0, 0, 1) == [(0, 0)];
    assert |TABLE_START| == 32 && |TABLE_END| == 8;
  }

  lemma OneTablePlan(fr: Frame, rs: seq<Rendered>, lim: Limits, plan: seq<seq<Table>>)
    requires Packed(fr, rs, lim, plan) && |rs| == 1 && AllRows(rs, 1) == [(0, 0)]
    requires !RowFits(fr, rs, lim, (0, 0), 0)
    ensures plan[0] == [ONLY_ROW] && !Fits(fr, rs, lim, plan[0], 0)
  {
    FirstRow(fr, rs, lim, plan);
    FirstMessageFitsExactly(fr, rs, lim, plan);
    assert KeepsTo(fr, rs, lim, plan, 0);
  }

  /**
   The first message can be over the limit although the introduction fits and a later message would have had room for the
   row: every packing of this report makes its first message longer than the limit.
   */
  lemma FirstMessageCanBeTooLong(plan: seq<seq<Table>>, msgs: seq<string>)
    requires Packed(FrameOf(Intro([Lead()])), Renderings([ONE_ROW]), TightLimits(), plan) && IsMessage(Intro([Lead()]), [ONE_ROW], plan, msgs, 0)
    ensures |msgs[0]| > TightLimits().runes && plan[0] == [ONLY_ROW]
    ensures Fits(FrameOf(Intro([Lead()])), Renderings([ONE_ROW]), TightLimits(), [], 0)
    ensures Fits(FrameOf(Intro([Lead()])), Renderings([ONE_ROW]), TightLimits(), [ONLY_ROW], 1)
  {
    LeadIsTheIntroduction();
    OneRowReport();
    var fr, rs, lim := FrameOf(Lead()), Renderings([ONE_ROW]), TightLimits();
    assert !RowFits(fr, rs, lim, (0, 0), 0);
    OneTablePlan(fr, rs, lim, plan);
    FirstHoldsIntro(Lead(), |plan|);
  }

  lemma FirstHoldsIntro(intro: string, n: nat)
    ensures |First(intro, 0, n)| >= |intro|
  {
    if n > 1 {
      var part := PartText(0, n);
      assert [part] + [intro] == [part, intro] && [part, intro][..1] == [part];
      assert Join([part, intro]) == Join([part]) + "<br>" + intro;
    } else {
      assert [] + [intro] == [intro];
    }
  }
}
