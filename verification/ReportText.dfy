/**
 The text of a report (infra/refused-apps/report.go): sections as headings and tables of escaped cells, and what the
 escaping keeps. A string is a sequence of runes.
 */
module ReportText {

  datatype Section = Section(heading: string, note: string, columns: seq<string>, rows: seq<seq<string>>)

  const TABLE_START: string := "<table bordered striped compact>"
  const TABLE_END: string := "</table>"

  function EscapeRune(c: char): string {
    if c == '&' then "&amp;"
    else if c == '\'' then "&#39;"
    else if c == '<' then "&lt;"
    else if c == '>' then "&gt;"
    else if c == '"' then "&#34;"
    else [c]
  }

  /** html.EscapeString. */
  function Escape(s: string): string {
    if s == "" then "" else Escape(s[..|s| - 1]) + EscapeRune(s[|s| - 1])
  }

  /** The first rune that an escaped text shows, and how many runes stand for it. */
  function Leading(t: string): (r: (char, nat))
    requires t != ""
    ensures 0 < r.1 <= |t|
  {
    if t[0] != '&' || |t| < 4 then (t[0], 1)
    else if t[1] == 'l' then ('<', 4)
    else if t[1] == 'g' then ('>', 4)
    else if |t| < 5 then (t[0], 1)
    else if t[1] == 'a' then ('&', 5)
    else if t[3] == '9' then ('\'', 5)
    else ('"', 5)
  }

  function Unescape(t: string): string
    decreases |t|
  {
    if t == "" then "" else [Leading(t).0] + Unescape(t[Leading(t).1..])
  }

  lemma {:induction false} EscapeFirst(s: string)
    requires s != ""
    ensures Escape(s) == EscapeRune(s[0]) + Escape(s[1..])
  {
    if |s| > 1 {
      EscapeFirst(s[..|s| - 1]);
      assert s[..|s| - 1][1..] == s[1..][..|s| - 2];
    }
  }

  lemma LeadingOne(c: char, t: string)
    requires |t| >= |EscapeRune(c)| && forall i :: 0 <= i < |EscapeRune(c)| ==> t[i] == EscapeRune(c)[i]
    ensures Leading(t) == (c, |EscapeRune(c)|)
  {
    if c == '&' {
      assert EscapeRune(c)[1] == 'a';
    } else if c == '\'' {
      assert EscapeRune(c)[1] == '#' && EscapeRune(c)[3] == '9';
    } else if c == '<' {
      assert EscapeRune(c)[1] == 'l';
    } else if c == '>' {
      assert EscapeRune(c)[1] == 'g';
    } else if c == '"' {
      assert EscapeRune(c)[1] == '#' && EscapeRune(c)[3] == '4';
    }
  }

  lemma UnescapeOne(c: char, rest: string)
    ensures Unescape(EscapeRune(c) + rest) == [c] + Unescape(rest)
  {
    hide EscapeRune, Leading;
    var t, n := EscapeRune(c) + rest, |EscapeRune(c)|;
    EscapedRuneIsSafe(c);
    LeadingOne(c, t);
    assert t[n..] == rest;
  }

  lemma EscapedRuneIsSafe(c: char)
    ensures |EscapeRune(c)| > 0 && forall i :: 0 <= i < |EscapeRune(c)| ==> !IsMarkup(EscapeRune(c)[i])
  {
  }

  predicate IsMarkup(c: char) {
    c == '<' || c == '>' || c == '"' || c == '\''
  }

  lemma EscapeNothing()
    ensures Escape("") == "" && Unescape("") == ""
  {
  }

  /** Escaped text shows what was escaped, and holds no character that could end a cell, a tag or an attribute. */
  lemma {:induction false} EscapedTextIsSafe(s: string)
    ensures Unescape(Escape(s)) == s && forall i :: 0 <= i < |Escape(s)| ==> !IsMarkup(Escape(s)[i])
    decreases |s|
  {
    hide EscapeRune, Escape, Unescape, IsMarkup;
    if s == "" {
      EscapeNothing();
    } else {
      EscapeFirst(s);
      EscapedRuneIsSafe(s[0]);
      EscapedTextIsSafe(s[1..]);
      UnescapeOne(s[0], Escape(s[1..]));
    }
  }

  /** The cells of a row between their tags. */
  function Cells(cells: seq<string>, tag: string, end: string): string {
    if cells == [] then "" else Cells(cells[..|cells| - 1], tag, end) + tag + Escape(cells[|cells| - 1]) + end
  }

  function RowText(row: seq<string>): string {
    "<tr>" + Cells(row, "<td>", "</td>") + "</tr>"
  }

  function Head(s: Section): string {
    "<h4>" + Escape(s.heading) + "</h4>" + (if s.note == "" then "" else "<p>" + Escape(s.note) + "</p>")
    + TABLE_START + "<tr>" + Cells(s.columns, "<th>", "</th>") + "</tr>"
  }

  /** How many tags a text opens. */
  function Tags(t: string): nat {
    if t == "" then 0 else Tags(t[..|t| - 1]) + if t[|t| - 1] == '<' then 1 else 0
  }

  lemma {:induction false} TagsAdd(a: string, b: string)
    ensures Tags(a + b) == Tags(a) + Tags(b)
  {
    if b == "" {
      assert a + b == a;
    } else {
      TagsAdd(a, b[..|b| - 1]);
      assert (a + b)[..|a + b| - 1] == a + b[..|b| - 1];
    }
  }

  lemma {:induction false} NoTags(t: string)
    requires forall i :: 0 <= i < |t| ==> t[i] != '<'
    ensures Tags(t) == 0
  {
    if t != "" {
      NoTags(t[..|t| - 1]);
    }
  }

  lemma EscapedHasNoTags(s: string)
    ensures Tags(Escape(s)) == 0
  {
    EscapedTextIsSafe(s);
    forall i | 0 <= i < |Escape(s)|
      ensures Escape(s)[i] != '<'
    {
      assert !IsMarkup(Escape(s)[i]);
    }
    NoTags(Escape(s));
  }

  lemma CellHasTwoTags(before: string, tag: string, cell: string, end: string)
    requires Tags(tag) == 1 && Tags(end) == 1
    ensures Tags(before + tag + Escape(cell) + end) == Tags(before) + 2
  {
    hide Tags, Escape;
    EscapedHasNoTags(cell);
    TagsAdd(before + tag + Escape(cell), end);
    TagsAdd(before + tag, Escape(cell));
    TagsAdd(before, tag);
  }

  lemma {:induction false} CellTags(cells: seq<string>, tag: string, end: string)
    requires Tags(tag) == 1 && Tags(end) == 1
    ensures Tags(Cells(cells, tag, end)) == 2 * |cells|
  {
    hide Escape;
    if cells != [] {
      CellTags(cells[..|cells| - 1], tag, end);
      CellHasTwoTags(Cells(cells[..|cells| - 1], tag, end), tag, cells[|cells| - 1], end);
    }
  }

  lemma OneTag(t: string)
    requires |t| > 0 && t[0] == '<' && forall i :: 0 < i < |t| ==> t[i] != '<'
    ensures Tags(t) == 1
  {
    assert t == [t[0]] + t[1..];
    TagsAdd([t[0]], t[1..]);
    NoTags(t[1..]);
    assert [t[0]][..0] == "";
  }

  lemma RowTags(row: seq<string>)
    ensures Tags(RowText(row)) == 2 + 2 * |row|
  {
    OneTag("<tr>");
    OneTag("</tr>");
    OneTag("<td>");
    OneTag("</td>");
    CellTags(row, "<td>", "</td>");
    TagsAdd("<tr>" + Cells(row, "<td>", "</td>"), "</tr>");
    TagsAdd("<tr>", Cells(row, "<td>", "</td>"));
  }

  lemma ParagraphTags(open: string, text: string, close: string)
    requires Tags(open) == 1 && Tags(close) == 1
    ensures Tags(open + Escape(text) + close) == 2
  {
    EscapedHasNoTags(text);
    TagsAdd(open + Escape(text), close);
    TagsAdd(open, Escape(text));
  }

  /**
   No text of a section can add markup: the tags of a heading and of a row depend only on how many columns or cells there
   are and whether there is a note.
   */
  lemma MarkupIsFixed(s: Section, row: seq<string>)
    ensures Tags(RowText(row)) == 2 + 2 * |row|
    ensures Tags(Head(s)) == 2 + (if s.note == "" then 0 else 2) + 3 + 2 * |s.columns|
  {
    RowTags(row);
    OneTag("<h4>");
    OneTag("</h4>");
    OneTag("<p>");
    OneTag("</p>");
    OneTag(TABLE_START);
    OneTag("<tr>");
    OneTag("</tr>");
    OneTag("<th>");
    OneTag("</th>");
    ParagraphTags("<h4>", s.heading, "</h4>");
    ParagraphTags("<p>", s.note, "</p>");
    CellTags(s.columns, "<th>", "</th>");
    HeadTags("<h4>" + Escape(s.heading) + "</h4>", if s.note == "" then "" else "<p>" + Escape(s.note) + "</p>", TABLE_START, "<tr>", Cells(s.columns, "<th>", "</th>"), "</tr>");
  }

  lemma HeadTags(a: string, b: string, c: string, d: string, e: string, f: string)
    ensures Tags(a + b + c + d + e + f) == Tags(a) + Tags(b) + Tags(c) + Tags(d) + Tags(e) + Tags(f)
  {
    TagsAdd(a + b + c + d + e, f);
    TagsAdd(a + b + c + d, e);
    TagsAdd(a + b + c, d);
    TagsAdd(a + b, c);
    TagsAdd(a, b);
  }

  function RowTexts(rows: seq<seq<string>>): (texts: seq<string>)
    ensures |texts| == |rows| && forall i :: 0 <= i < |rows| ==> texts[i] == RowText(rows[i])
  {
    seq(|rows|, i requires 0 <= i < |rows| => RowText(rows[i]))
  }

  function Join(lines: seq<string>): string {
    if lines == [] then "" else if |lines| == 1 then lines[0] else Join(lines[..|lines| - 1]) + "<br>" + lines[|lines| - 1]
  }

  function Itoa(n: nat): string {
    if n < 10 then [Digit(n)] else Itoa(n / 10) + [Digit(n % 10)]
  }

  function Digit(d: nat): char
    requires d < 10
  {
    "0123456789"[d]
  }

  /** The number that decimal digits stand for. */
  function Number(s: string): int {
    if s == "" then 0 else 10 * Number(s[..|s| - 1]) + (s[|s| - 1] as int - '0' as int)
  }

  lemma DigitStandsFor(d: nat)
    requires d < 10
    ensures Digit(d) as int - '0' as int == d
  {
  }

  lemma {:induction false} NumbersReadBack(n: nat)
    ensures Number(Itoa(n)) == n
  {
    if n < 10 {
      DigitStandsFor(n);
      assert [Digit(n)][..0] == "";
    } else {
      NumbersReadBack(n / 10);
      DigitStandsFor(n % 10);
      assert (Itoa(n / 10) + [Digit(n % 10)])[..|Itoa(n / 10)|] == Itoa(n / 10);
    }
  }

  function Power10(k: nat): nat {
    if k == 0 then 1 else 10 * Power10(k - 1)
  }

  lemma {:induction false} DigitsOf(n: nat, k: nat)
    requires k > 0 && n < Power10(k)
    ensures 1 <= |Itoa(n)| <= k
    decreases k
  {
    if n >= 10 {
      DigitsOf(n / 10, k - 1);
    }
  }

  lemma PartNumbersAreShort(n: nat)
    requires n < 1_000_000_000
    ensures |Itoa(n)| <= 9
  {
    assert Power10(3) == 1000;
    assert Power10(6) == 1000 * Power10(3);
    assert Power10(9) == 1000 * Power10(6);
    DigitsOf(n, 9);
  }
}
