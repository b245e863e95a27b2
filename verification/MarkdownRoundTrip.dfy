/** However a document is laid out, parsing the text gives the document. */
module MarkdownRoundTrip {
  import opened Text
  import opened MarkdownBlocks

  // ---------------------------------------------------------------------------------------------
  // Documents as an author may lay them out
  // ---------------------------------------------------------------------------------------------

  /** Trimmed text with white space around it. */
  datatype Padded = Padded(before: string, text: string, after: string)

  /** What stands before an item's text: one of the two bullets, or a number and what closes it. */
  datatype Mark = Bulleted(sign: char) | Numbered(digits: string, close: char)

  /** A line that continues an item, perhaps after a blank line. */
  datatype Wrap = Wrap(gap: Option<string>, line: Padded)

  /** A list item with the lines that continue it, perhaps after a blank line. */
  datatype Entry = Entry(
    gap: Option<string>, indent: string, mark: Mark, space: string, text: string, wraps: seq<Wrap>)

  datatype Top = Top(entry: Entry, children: seq<Entry>)

  datatype QuoteLine = QuoteLine(indent: string, space: string, text: string)

  /** A table row; the bar that closes it may be left out. */
  datatype RowText = RowText(before: string, cells: seq<Padded>, closed: bool, after: string)

  datatype Layout =
    | HeadingLine(level: nat, space: string, text: string)
    | ParagraphLines(parts: seq<Padded>)
    | ListEntries(items: seq<Top>)
    | QuoteLines(quoted: seq<QuoteLine>)
    | CodeLines(info: string, code: seq<string>, closing: Option<string>)
    | TableLines(header: RowText, rule: string, rows: seq<RowText>)

  /** A block and the blank lines after it. */
  datatype Placed = Placed(block: Layout, blanks: seq<string>)

  // The lines -------------------------------------------------------------------------------------

  function Line(p: Padded): string { p.before + (p.text + p.after) }

  function Lines(ps: seq<Padded>): (lines: seq<string>)
    ensures |lines| == |ps|
  {
    seq(|ps|, i requires 0 <= i < |ps| => Line(ps[i]))
  }

  function GapLines(gap: Option<string>): seq<string> { if gap.Some? then [gap.value] else [] }

  function MarkText(m: Mark): string {
    match m
    case Bulleted(sign) => [sign]
    case Numbered(digits, close) => digits + [close]
  }

  function ItemLine(indent: string, mark: Mark, space: string, text: string): string {
    indent + (MarkText(mark) + (space + text))
  }

  function WrapLines(wraps: seq<Wrap>): seq<string> {
    if wraps == [] then [] else GapLines(wraps[0].gap) + ([Line(wraps[0].line)] + WrapLines(wraps[1..]))
  }

  function EntryLine(e: Entry): string { ItemLine(e.indent, e.mark, e.space, e.text) }

  function EntryLines(e: Entry): seq<string> { GapLines(e.gap) + ([EntryLine(e)] + WrapLines(e.wraps)) }

  function ChildLines(children: seq<Entry>): seq<string> {
    if children == [] then [] else EntryLines(children[0]) + ChildLines(children[1..])
  }

  function ListLines(items: seq<Top>): seq<string> {
    if items == [] then []
    else EntryLines(items[0].entry) + (ChildLines(items[0].children) + ListLines(items[1..]))
  }

  function QuotedLine(q: QuoteLine): string { q.indent + (">" + (q.space + q.text)) }

  function RowLine(row: RowText): string {
    row.before + ("|" + (Join(Lines(row.cells), "|") + ((if row.closed then "|" else "") + row.after)))
  }

  function BlockLines(b: Layout): seq<string> {
    match b
    case HeadingLine(level, space, text) => [(if level == 4 then "#### " else "### ") + (space + text)]
    case ParagraphLines(lines) => Lines(lines)
    case ListEntries(items) => ListLines(items)
    case QuoteLines(lines) => seq(|lines|, i requires 0 <= i < |lines| => QuotedLine(lines[i]))
    case CodeLines(info, lines, closing) =>
      [FENCE + info] + (lines + (if closing.Some? then [FENCE + closing.value] else []))
    case TableLines(header, rule, rows) =>
      [RowLine(header), rule] + seq(|rows|, i requires 0 <= i < |rows| => RowLine(rows[i]))
  }

  function DocLines(doc: seq<Placed>): seq<string> {
    if doc == [] then [] else BlockLines(doc[0].block) + (doc[0].blanks + DocLines(doc[1..]))
  }

  // The blocks ------------------------------------------------------------------------------------

  /** A text continued over several lines. */
  function Continued(text: string, wraps: seq<Wrap>): string
    decreases |wraps|
  {
    if wraps == [] then text else Continued(text + " " + wraps[0].line.text, wraps[1..])
  }

  function ChildItems(children: seq<Entry>): (items: seq<Item>)
    ensures |items| == |children|
  {
    seq(|children|, i requires 0 <= i < |children| => Item(Continued(children[i].text, children[i].wraps), []))
  }

  function Items(tops: seq<Top>): (items: seq<Item>)
    ensures |items| == |tops|
  {
    seq(|tops|, i requires 0 <= i < |tops| =>
      Item(Continued(tops[i].entry.text, tops[i].entry.wraps), ChildItems(tops[i].children)))
  }

  function TextsOf(ps: seq<Padded>): (texts: seq<string>)
    ensures |texts| == |ps|
  {
    seq(|ps|, i requires 0 <= i < |ps| => ps[i].text)
  }

  /** The block a layout stands for; a list is numbered when its first item is. */
  function BlockOf(b: Layout): Block {
    match b
    case HeadingLine(level, _, text) => Heading(level, text)
    case ParagraphLines(lines) => Paragraph(Join(TextsOf(lines), " "))
    case ListEntries(items) => List(items != [] && items[0].entry.mark.Numbered?, Items(items))
    case QuoteLines(lines) => Quote(seq(|lines|, i requires 0 <= i < |lines| => lines[i].text))
    case CodeLines(_, lines, _) => Code(lines)
    case TableLines(header, _, rows) =>
      Table(TextsOf(header.cells), seq(|rows|, i requires 0 <= i < |rows| => TextsOf(rows[i].cells)))
  }

  function BlocksIn(doc: seq<Placed>): (blocks: seq<Block>)
    ensures |blocks| == |doc|
  {
    seq(|doc|, i requires 0 <= i < |doc| => BlockOf(doc[i].block))
  }

  /** A single blank line between two lists does not separate them. */
  predicate JoinsNext(doc: seq<Placed>) {
    |doc| > 1 && doc[0].block.ListEntries? && |doc[0].blanks| == 1 && doc[1].block.ListEntries?
  }

  /** How many lists read as one with the first, itself included, and all their items. */
  function JoinedLists(doc: seq<Placed>): (n: nat)
    requires doc != []
    ensures 1 <= n <= |doc|
  {
    if JoinsNext(doc) then 1 + JoinedLists(doc[1..]) else 1
  }

  function JoinedItems(doc: seq<Placed>): seq<Item>
    requires doc != [] && doc[0].block.ListEntries?
  {
    Items(doc[0].block.items) + (if JoinsNext(doc) then JoinedItems(doc[1..]) else [])
  }

  /** The document a text stands for. */
  function Meaning(doc: seq<Placed>): (blocks: seq<Block>)
    ensures |blocks| <= |doc|
    decreases |doc|
  {
    if doc == [] then []
    else if doc[0].block.ListEntries? then
      [List(BlockOf(doc[0].block).ordered, JoinedItems(doc))] + Meaning(doc[JoinedLists(doc)..])
    else [BlockOf(doc[0].block)] + Meaning(doc[1..])
  }

  // What may be written ---------------------------------------------------------------------------

  predicate LegalPadded(p: Padded) { Blank(p.before) && Blank(p.after) && Trimmed(p.text) }

  predicate LegalMark(m: Mark) {
    match m
    case Bulleted(sign) => sign == '-' || sign == '*'
    case Numbered(digits, close) =>
      digits != "" && (forall i :: 0 <= i < |digits| ==> '0' <= digits[i] <= '9') && (close == '.' || close == ')')
  }

  /** Text that may follow a list mark: it ends no line and does not begin with white space. */
  predicate ItemText(s: string) {
    (s != "" ==> !IsSpace(s[0])) && forall i :: 0 <= i < |s| ==> !EndsLine(s[i])
  }

  predicate LegalItem(indent: string, mark: Mark, space: string, text: string) {
    Blank(indent) && LegalMark(mark) && Blank(space) && space != "" && ItemText(text)
  }

  /** The line is an item with this indentation and text, numbered or not. */
  ghost predicate IsItem(line: string, indented: nat, text: string, numbered: bool) {
    exists indent, mark, space ::
      && line == ItemLine(indent, mark, space, text) && LegalItem(indent, mark, space, text)
      && |indent| == indented && mark.Numbered? == numbered
  }

  ghost predicate IsItemLine(line: string) { exists n, text, numbered :: IsItem(line, n, text, numbered) }

  predicate LegalGap(gap: Option<string>) { gap.Some? ==> Blank(gap.value) }

  ghost predicate LegalWrap(w: Wrap) {
    && LegalGap(w.gap) && LegalPadded(w.line) && w.line.text != ""
    && |w.line.before| >= 2 && !IsItemLine(Line(w.line))
  }

  ghost predicate LegalEntry(e: Entry) {
    && LegalGap(e.gap) && LegalItem(e.indent, e.mark, e.space, e.text)
    && forall w :: w in e.wraps ==> LegalWrap(w)
  }

  /** Items are indented by less than two, their children by two or more. */
  ghost predicate LegalTop(t: Top) {
    && LegalEntry(t.entry) && |t.entry.indent| < 2
    && forall c :: c in t.children ==> LegalEntry(c) && |c.indent| >= 2
  }

  predicate LegalQuoteLine(q: QuoteLine) {
    && Blank(q.indent) && |q.space| <= 1 && Blank(q.space)
    && (q.space == "" && q.text != "" ==> !IsSpace(q.text[0]))
  }

  /** Cells hold no bar, and without a closing bar the last one is not empty. */
  predicate LegalRow(row: RowText) {
    && Blank(row.before) && Blank(row.after) && row.cells != []
    && (forall c :: c in row.cells ==> LegalPadded(c) && '|' !in c.text)
    && (!row.closed ==> row.cells[|row.cells| - 1].text != "" && row.cells[|row.cells| - 1].after == "")
  }

  predicate LegalRule(rule: string) {
    && Indent(rule) < |rule| && rule[Indent(rule)] == '|'
    && forall i :: 0 <= i < |rule| ==> IsSpace(rule[i]) || rule[i] == '|' || rule[i] == ':' || rule[i] == '-'
  }

  /** The line opens a block of one of the other kinds but a table. */
  ghost predicate OpensBlock(p: Padded) {
    || StartsWith(Line(p), "```") || StartsWith(Line(p), "### ") || StartsWith(Line(p), "#### ")
    || p.text == ">" || StartsWith(p.text, "> ") || IsItemLine(Line(p))
  }

  ghost predicate LegalParagraph(lines: seq<Padded>) {
    && lines != [] && |lines[0].before| < 2
    && (forall p :: p in lines ==> LegalPadded(p) && p.text != "" && !OpensBlock(p))
    && forall i, j :: 0 <= i < j < |lines| && j == i + 1 && lines[i].text[0] == '|' ==> !LegalRule(Line(lines[j]))
  }

  ghost predicate LegalBlock(b: Layout) {
    match b
    case HeadingLine(level, space, text) =>
      (level == 3 || level == 4) && Blank(space) && (text != "" ==> !IsSpace(text[0]))
    case ParagraphLines(lines) => LegalParagraph(lines)
    case ListEntries(items) =>
      items != [] && items[0].entry.gap.None? && forall t :: t in items ==> LegalTop(t)
    case QuoteLines(lines) =>
      && lines != [] && |lines[0].indent| < 2 && (lines[0].space == " " || lines[0].text == "")
      && forall q :: q in lines ==> LegalQuoteLine(q)
    case CodeLines(_, lines, _) => forall l :: l in lines ==> !StartsWith(l, "```")
    case TableLines(header, rule, rows) =>
      LegalRow(header) && |header.before| < 2 && LegalRule(rule) && forall r :: r in rows ==> LegalRow(r)
  }

  /** Blank lines separate blocks. None are needed after a heading, a closed code block or the last block, and nothing
      can follow a code block left open. */
  ghost predicate LegalPlace(p: Placed, more: seq<string>) {
    && LegalBlock(p.block) && (forall l :: l in p.blanks ==> Blank(l))
    && (p.block.CodeLines? && p.block.closing.None? ==> p.blanks == [] && more == [])
    && (p.blanks == [] && more != [] ==> p.block.HeadingLine? || p.block.CodeLines?)
  }

  ghost predicate LegalDoc(doc: seq<Placed>) {
    doc == [] || (LegalPlace(doc[0], DocLines(doc[1..])) && LegalDoc(doc[1..]))
  }

  // ---------------------------------------------------------------------------------------------
  // Single lines
  // ---------------------------------------------------------------------------------------------

  lemma MarkReads(line: string, mark: nat, space: string, text: string)
    requires mark <= |line| && line[mark..] == space + text && Blank(space) && space != "" && ItemText(text)
    ensures MarkedAt(line, mark) == Some((Indent(line), text))
  {
    hide Indent, IsSpace, EndsLine;
    assert (space + text)[..|space|] == space && (space + text)[|space|..] == text;
    IndentIs(space + text, |space|);
  }

  lemma {:induction false} DigitsFromIs(line: string, n: nat, digits: string)
    requires n + |digits| < |line| && line[n..n + |digits|] == digits
    requires forall i :: 0 <= i < |digits| ==> '0' <= digits[i] <= '9'
    requires !('0' <= line[n + |digits|] <= '9')
    ensures DigitsFrom(line, n) == n + |digits|
    decreases |digits|
  {
    if digits != "" {
      assert line[n] == digits[0];
      assert line[n + 1..n + |digits|] == digits[1..];
      DigitsFromIs(line, n + 1, digits[1..]);
    }
  }

  lemma {:induction false} DigitsAre(line: string, n: nat)
    requires n <= |line|
    ensures forall i :: n <= i < DigitsFrom(line, n) ==> '0' <= line[i] <= '9'
    decreases |line| - n
  {
    if n < |line| && '0' <= line[n] <= '9' {
      DigitsAre(line, n + 1);
    }
  }

  lemma MarkFacts(m: Mark)
    requires LegalMark(m)
    ensures MarkText(m) != "" && !IsSpace(MarkText(m)[0])
    ensures MarkText(m)[0] != '#' && MarkText(m)[0] != '>' && MarkText(m)[0] != '|' && MarkText(m)[0] != '`'
    ensures m.Numbered? <==> '0' <= MarkText(m)[0] <= '9'
  {
    if m.Numbered? { assert MarkText(m)[0] == m.digits[0]; }
  }

  /** Where an item's mark stands. */
  lemma MarkStands(indent: string, mark: Mark, space: string, text: string)
    requires LegalItem(indent, mark, space, text)
    ensures var line := ItemLine(indent, mark, space, text);
      var n, m := |indent|, |indent| + |MarkText(mark)|;
      && n < m <= |line| && Indent(line) == n && line[n..m] == MarkText(mark) && line[n] == MarkText(mark)[0]
      && MarkedAt(line, m) == Some((n, text))
  {
    hide IsSpace, EndsLine, MarkedAt, ItemText;
    var line, n := ItemLine(indent, mark, space, text), |indent|;
    var m := n + |MarkText(mark)|;
    MarkFacts(mark);
    assert line[..n] == indent && line[n] == MarkText(mark)[0];
    IndentIs(line, n);
    assert line[m..] == space + text;
    MarkReads(line, m, space, text);
  }

  lemma BulletStands(line: string, n: nat, m: nat, mark: Mark)
    requires LegalMark(mark) && mark.Bulleted? && Indent(line) == n < m <= |line| && line[n..m] == MarkText(mark)
    ensures Bullet(line) == MarkedAt(line, m)
  {
    hide MarkedAt, Indent;
    assert line[n..m][0] == line[n];
  }

  lemma NumberStands(line: string, n: nat, m: nat, mark: Mark)
    requires LegalMark(mark) && mark.Numbered? && Indent(line) == n < m <= |line| && line[n..m] == MarkText(mark)
    ensures Bullet(line).None? && Ordered(line) == MarkedAt(line, m)
  {
    hide MarkedAt, Indent, DigitsFrom, MarkText;
    NumberParts(line, n, m, mark);
    DigitsFromIs(line, n, mark.digits);
  }

  lemma NumberParts(line: string, n: nat, m: nat, mark: Mark)
    requires LegalMark(mark) && mark.Numbered? && n < m <= |line| && line[n..m] == MarkText(mark)
    ensures m == n + |mark.digits| + 1 && line[n..m - 1] == mark.digits && line[m - 1] == mark.close
    ensures '0' <= line[n] <= '9'
  {
    var part := line[n..m];
    assert part[..|mark.digits|] == mark.digits && part[|mark.digits|] == mark.close;
    assert line[n] == part[0] == mark.digits[0];
    assert line[n..m - 1] == part[..|mark.digits|];
  }

  /** A line written as an item reads as that item, whatever its number, its mark and its white space. */
  lemma ItemReads(indent: string, mark: Mark, space: string, text: string)
    requires LegalItem(indent, mark, space, text)
    ensures var line := ItemLine(indent, mark, space, text);
      && Indent(line) == |indent| < |line| && line[|indent|] == MarkText(mark)[0]
      && ItemOf(line) == Some((|indent|, text)) && Bullet(line).None? == mark.Numbered?
  {
    hide MarkedAt, ItemText, Indent, ItemLine, MarkText, Bullet, Ordered, LegalMark;
    var line, n := ItemLine(indent, mark, space, text), |indent|;
    var m := n + |MarkText(mark)|;
    MarkStands(indent, mark, space, text);
    if mark.Numbered? {
      NumberStands(line, n, m, mark);
    } else {
      BulletStands(line, n, m, mark);
    }
  }

  lemma MarkedSplits(line: string, mark: nat)
    requires mark <= |line| && MarkedAt(line, mark).Some?
    ensures MarkedAt(line, mark).value.0 == Indent(line)
    ensures var text := MarkedAt(line, mark).value.1;
      var space := line[mark..][..|line| - mark - |text|];
      && |text| <= |line| - mark && line[mark..] == space + text && Blank(space) && space != "" && ItemText(text)
  {
    hide IsSpace, EndsLine, Indent;
    var rest := line[mark..];
    assert rest[..0] == "" && Indent(rest) > 0;
  }

  lemma WrittenItem(indent: string, mark: Mark, space: string, text: string)
    requires LegalItem(indent, mark, space, text)
    ensures IsItem(ItemLine(indent, mark, space, text), |indent|, text, mark.Numbered?)
  {
    hide ItemLine, LegalItem;
  }

  lemma CutsAsItem(line: string, n: nat, mark: Mark, space: string, text: string)
    requires n + |MarkText(mark)| <= |line| && line[n..n + |MarkText(mark)|] == MarkText(mark)
    requires line[n + |MarkText(mark)|..] == space + text
    ensures line == ItemLine(line[..n], mark, space, text)
  {
    hide MarkText;
    assert line == line[..n] + (line[n..n + |MarkText(mark)|] + line[n + |MarkText(mark)|..]);
  }

  /** A mark on a line, and what the text after it says. */
  lemma MarkSplits(line: string, mark: Mark)
    requires LegalMark(mark) && Indent(line) + |MarkText(mark)| <= |line|
    requires line[Indent(line)..Indent(line) + |MarkText(mark)|] == MarkText(mark)
    requires MarkedAt(line, Indent(line) + |MarkText(mark)|).Some?
    ensures var r := MarkedAt(line, Indent(line) + |MarkText(mark)|).value; IsItem(line, r.0, r.1, mark.Numbered?)
  {
    hide IsSpace, MarkedAt, ItemText, MarkText, LegalMark, IsItem, Blank, ItemLine, Indent;
    var n := Indent(line);
    var after := n + |MarkText(mark)|;
    MarkedSplits(line, after);
    var text := MarkedAt(line, after).value.1;
    var space := line[after..][..|line| - after - |text|];
    CutsAsItem(line, n, mark, space, text);
    assert LegalItem(line[..n], mark, space, text);
    WrittenItem(line[..n], mark, space, text);
  }

  lemma ItemSplits(line: string)
    requires ItemOf(line).Some?
    ensures IsItem(line, ItemOf(line).value.0, ItemOf(line).value.1, Bullet(line).None?)
  {
    hide IsSpace, MarkedAt, DigitsFrom, IsItem, Indent;
    var n := Indent(line);
    var m := DigitsFrom(line, n);
    if Bullet(line).Some? {
      assert line[n..n + 1] == [line[n]];
      MarkSplits(line, Bulleted(line[n]));
    } else {
      DigitsAre(line, n);
      assert line[n..m + 1] == line[n..m] + [line[m]];
      MarkSplits(line, Numbered(line[n..m], line[m]));
    }
  }

  /** What counts as an item: the line reads as one, with this indentation, text and kind, if and only if it is
      written as one. */
  lemma ItemIff(line: string, n: nat, text: string, numbered: bool)
    ensures ItemOf(line) == Some((n, text)) && Bullet(line).None? == numbered <==> IsItem(line, n, text, numbered)
  {
    hide ItemOf, Bullet, LegalItem;
    if IsItem(line, n, text, numbered) {
      var indent, mark, space :|
        && line == ItemLine(indent, mark, space, text) && LegalItem(indent, mark, space, text)
        && |indent| == n && mark.Numbered? == numbered;
      ItemReads(indent, mark, space, text);
    }
    if ItemOf(line).Some? {
      ItemSplits(line);
    }
  }

  lemma ItemLineIff(line: string)
    ensures ItemOf(line).Some? <==> IsItemLine(line)
  {
    hide ItemOf, Bullet, IsItem;
    if IsItemLine(line) {
      var n, text, numbered :| IsItem(line, n, text, numbered);
      ItemIff(line, n, text, numbered);
    }
    if ItemOf(line).Some? {
      ItemIff(line, ItemOf(line).value.0, ItemOf(line).value.1, Bullet(line).None?);
    }
  }

  /** Where a line that is not blank begins. */
  lemma LineStart(line: string)
    requires Indent(line) < |line|
    ensures !Blank(line) && TrimStart(line) != "" && TrimStart(line)[0] == line[Indent(line)]
    ensures Trim(line) != "" && Trim(line)[0] == line[Indent(line)]
  {
    hide IsSpace, Indent, ContentEnd;
    var t := TrimStart(line);
    assert t[0] == line[Indent(line)];
    assert t[0..] == t;
  }

  lemma PaddedFacts(p: Padded)
    requires LegalPadded(p) && p.text != ""
    ensures var line := Line(p);
      && Indent(line) == |p.before| < |line| && line[Indent(line)] == p.text[0]
      && !Blank(line) && TrimStart(line) == p.text + p.after && Trim(line) == p.text
  {
    hide IsSpace, Trim, TrimStart;
    var line := Line(p);
    assert line[..|p.before|] == p.before && line[|p.before|] == p.text[0];
    IndentIs(line, |p.before|);
    LineStart(line);
    TrimPadded(p.before, p.text, p.after);
  }

  /** A line that begins with none of these characters opens at most a list. */
  lemma OpensAtMostAList(line: string)
    requires Indent(line) < |line|
    requires var c := line[Indent(line)]; c != '#' && c != '>' && c != '|' && c != '`'
    ensures !IsFence(line) && !IsHeading(line) && !StartsQuote(line) && !IsTableRow(line)
  {
    hide IsSpace, Trim, TrimStart;
    LineStart(line);
    FirstSpace();
    assert line[0] == line[Indent(line)] || IsSpace(line[0]) by {
      if Indent(line) > 0 { assert line[..Indent(line)][0] == line[0]; }
    }
    FirstOf(line, FENCE);
    FirstOf(line, "### ");
    FirstOf(line, "#### ");
    FirstOf(TrimStart(line), "> ");
    FirstOf(Trim(line), "|");
  }

  lemma FirstOf(line: string, prefix: string)
    requires prefix != ""
    ensures StartsWith(line, prefix) ==> line[0] == prefix[0]
  {
    if StartsWith(line, prefix) { assert line[..|prefix|][0] == line[0]; }
  }

  lemma FirstSpace()
    ensures !IsSpace('#') && !IsSpace('`') && !IsSpace('>') && !IsSpace('|') && !IsSpace('-') && IsSpace(' ')
  {}

  lemma BlankOpensNothing(line: string)
    requires Blank(line)
    ensures ItemOf(line).None? && !IsWrap(line) && !IsQuoteLine(line) && !IsTableRow(line)
  {
    hide IsSpace, Trim, MarkedAt;
    assert line[..|line|] == line;
    IndentIs(line, |line|);
    TrimEmptyIffBlank(line);
  }

  /** A line beginning with one of these characters is no item, and no wrapped line when hardly indented. */
  lemma NoItem(line: string)
    requires Indent(line) < |line|
    requires var c := line[Indent(line)]; c == '#' || c == '>' || c == '|' || c == '`'
    ensures ItemOf(line).None? && !Blank(line)
  {
    hide IsSpace, MarkedAt, Indent;
    LineStart(line);
  }

  lemma Unindented(line: string)
    requires line != "" && !IsSpace(line[0])
    ensures Indent(line) == 0 && !Blank(line)
  {
    IndentIs(line, 0);
  }

  // ---------------------------------------------------------------------------------------------
  // Headings, quotes and code
  // ---------------------------------------------------------------------------------------------

  /** What follows a block that ends at a blank line. */
  predicate Ends(after: seq<string>) { after != [] ==> Blank(after[0]) }

  lemma HeadingTextIs(marks: string, space: string, text: string)
    requires marks != "" && (forall i :: 0 <= i < |marks| ==> marks[i] == '#')
    requires Blank(space) && (text != "" ==> !IsSpace(text[0]))
    ensures HeadingText(marks + (" " + (space + text))) == text
  {
    hide IsSpace, Indent;
    FirstSpace();
    var line, rest, n := marks + (" " + (space + text)), " " + (space + text), |marks|;
    assert line[..n] == marks && line[n] == ' ' && line[n..] == rest;
    HashesAre(line, n);
    assert rest[..1 + |space|] == " " + space && rest[1 + |space|..] == text;
    IndentIs(rest, 1 + |space|);
  }

  lemma HeadingMeans(level: nat, space: string, text: string)
    requires LegalBlock(HeadingLine(level, space, text))
    ensures var line := BlockLines(HeadingLine(level, space, text))[0];
      && line != "" && line[0] == '#' && IsHeading(line) && !IsFence(line) && HeadingAt(line) == Heading(level, text)
  {
    hide IsSpace, HeadingText;
    var marks := if level == 4 then "####" else "###";
    var line := (if level == 4 then "#### " else "### ") + (space + text);
    assert line == marks + (" " + (space + text));
    assert line[..level + 1] == if level == 4 then "#### " else "### ";
    FourthIs(line);
    FirstOf(line, FENCE);
    HeadingTextIs(marks, space, text);
  }

  lemma FourthIs(line: string)
    requires |line| > 3
    ensures StartsWith(line, "#### ") ==> line[3] == '#'
  {
    if StartsWith(line, "#### ") { assert line[..5][3] == line[3]; }
  }

  lemma HeadingReads(level: nat, space: string, text: string, after: seq<string>)
    requires LegalBlock(HeadingLine(level, space, text))
    ensures var line := BlockLines(HeadingLine(level, space, text))[0];
      !Blank(line) && Opened([line] + after) == Some((Heading(level, text), 1))
  {
    hide ItemOf, StartsQuote, StartsTable, IsSpace, IsHeading, IsFence, HeadingAt, Blank;
    FirstSpace();
    HeadingMeans(level, space, text);
    Unindented(BlockLines(HeadingLine(level, space, text))[0]);
  }

  lemma QuoteLineReads(q: QuoteLine)
    requires LegalQuoteLine(q)
    ensures var line := QuotedLine(q);
      && Indent(line) == |q.indent| < |line| && line[|q.indent|] == '>'
      && IsQuoteLine(line) && QuoteText(line) == q.text
    ensures q.space == " " || q.text == "" ==> StartsQuote(QuotedLine(q))
  {
    hide IsSpace, Trim, Indent;
    FirstSpace();
    var line, rest := QuotedLine(q), q.space + q.text;
    assert line[..|q.indent|] == q.indent && line[|q.indent|] == '>';
    IndentIs(line, |q.indent|);
    assert TrimStart(line) == ">" + rest && (">" + rest)[..1] == ">" && (">" + rest)[1..] == rest;
    assert q.space != "" ==> rest[1..] == q.text;
    if q.space == " " {
      assert (">" + rest)[..2] == "> ";
    } else if q.text == "" {
      assert rest == q.space && line == q.indent + (">" + q.space);
      TrimPadded(q.indent, ">", q.space);
    }
  }

  lemma {:induction false} QuoteRunIs(lines: seq<QuoteLine>, after: seq<string>)
    requires (forall q :: q in lines ==> LegalQuoteLine(q)) && Ends(after)
    ensures QuoteRun(BlockLines(QuoteLines(lines)) + after) == |lines|
  {
    hide QuotedLine, IsQuoteLine, LegalQuoteLine, Indent, QuoteText, StartsQuote;
    var all := BlockLines(QuoteLines(lines)) + after;
    if lines == [] {
      assert all == after;
      if after != [] { BlankOpensNothing(after[0]); }
    } else {
      assert lines[0] in lines && forall q :: q in lines[1..] ==> q in lines;
      QuoteLineReads(lines[0]);
      assert all[1..] == BlockLines(QuoteLines(lines[1..])) + after;
      QuoteRunIs(lines[1..], after);
    }
  }

  lemma QuoteReads(lines: seq<QuoteLine>, after: seq<string>)
    requires LegalBlock(QuoteLines(lines)) && Ends(after)
    ensures var printed := BlockLines(QuoteLines(lines));
      !Blank(printed[0]) && Opened(printed + after) == Some((BlockOf(QuoteLines(lines)), |lines|))
  {
    hide QuoteText, StartsQuote, IsQuoteLine, Blank, QuotedLine, Indent, LegalQuoteLine;
    var printed := BlockLines(QuoteLines(lines));
    var all := printed + after;
    assert lines[0] in lines && all[0] == printed[0] == QuotedLine(lines[0]);
    QuoteLineReads(lines[0]);
    QuoteOpensNothingEarlier(all[0]);
    QuoteRunIs(lines, after);
    assert all[..|lines|] == printed;
    forall i | 0 <= i < |lines| ensures IsQuoteLine(printed[i]) && QuoteText(printed[i]) == lines[i].text {
      assert lines[i] in lines;
      QuoteLineReads(lines[i]);
    }
    assert QuoteTexts(printed) == BlockOf(QuoteLines(lines)).lines;
  }

  lemma QuoteOpensNothingEarlier(line: string)
    requires Indent(line) < |line| && line[Indent(line)] == '>'
    ensures !Blank(line) && !IsFence(line) && !IsHeading(line)
  {
    hide IsSpace;
    FirstSpace();
    LineStart(line);
    FirstOf(line, FENCE);
    FirstOf(line, "### ");
    FirstOf(line, "#### ");
    if Indent(line) > 0 { assert line[..Indent(line)][0] == line[0]; }
  }

  lemma {:induction false} CodeRunIs(lines: seq<string>, after: seq<string>)
    requires forall l :: l in lines ==> !StartsWith(l, "```")
    requires after == [] || StartsWith(after[0], "```")
    ensures CodeRun(lines + after) == |lines|
  {
    hide StartsWith;
    if lines == [] {
      assert lines + after == after;
    } else {
      assert lines[0] in lines && (lines + after)[0] == lines[0];
      assert (lines + after)[1..] == lines[1..] + after;
      CodeRunIs(lines[1..], after);
    }
  }

  lemma FenceIs(info: string)
    ensures StartsWith(FENCE + info, "```") && FENCE + info != "" && (FENCE + info)[0] == '`'
  {
    assert (FENCE + info)[..3] == "```";
  }

  lemma CodeReads(b: Layout, after: seq<string>)
    requires b.CodeLines? && LegalBlock(b) && (b.closing.None? ==> after == [])
    ensures var printed := BlockLines(b);
      !Blank(printed[0]) && Opened(printed + after) == Some((Code(b.code), |printed|))
  {
    hide StartsWith, IsSpace, Blank;
    FirstSpace();
    FenceIs(b.info);
    Unindented(FENCE + b.info);
    var close := if b.closing.Some? then [FENCE + b.closing.value] else [];
    if b.closing.Some? { FenceIs(b.closing.value); }
    var all := BlockLines(b) + after;
    assert all[0] == FENCE + b.info && all[1..] == b.code + (close + after);
    CodeRunIs(b.code, close + after);
    assert all[1..|b.code| + 1] == b.code;
  }

  // ---------------------------------------------------------------------------------------------
  // Tables
  // ---------------------------------------------------------------------------------------------

  lemma {:induction false} JoinEnds(parts: seq<string>, sep: string)
    requires parts != [] && parts[|parts| - 1] != ""
    ensures var s, last := Join(parts, sep), parts[|parts| - 1]; s != "" && s[|s| - 1] == last[|last| - 1]
  {
    if |parts| > 1 { JoinEnds(parts[1..], sep); }
  }

  lemma CellsRead(cells: seq<Padded>)
    requires cells != [] && forall c :: c in cells ==> LegalPadded(c) && '|' !in c.text
    ensures TrimAll(Split(Join(Lines(cells), "|"), '|')) == TextsOf(cells)
  {
    hide IsSpace, Blank, Trim, Split, Join, Line;
    forall p | p in Lines(cells) ensures '|' !in p {
      var i :| 0 <= i < |cells| && p == Lines(cells)[i];
      assert cells[i] in cells;
      NoBar(cells[i]);
    }
    SplitJoin(Lines(cells), '|');
    forall i | 0 <= i < |cells| ensures Trim(Lines(cells)[i]) == cells[i].text {
      assert cells[i] in cells;
      LineTrims(cells[i]);
    }
    assert TrimAll(Lines(cells)) == TextsOf(cells);
  }

  lemma NoBar(c: Padded)
    requires LegalPadded(c) && '|' !in c.text
    ensures '|' !in Line(c)
  {
    hide IsSpace;
    FirstSpace();
  }

  lemma LineTrims(p: Padded)
    requires LegalPadded(p)
    ensures Trim(Line(p)) == p.text
  {
    hide IsSpace, Trim;
    TrimPadded(p.before, p.text, p.after);
  }

  /** A row without the white space around it, and without its bars. */
  lemma RowStrips(row: RowText)
    requires LegalRow(row)
    ensures var body := Join(Lines(row.cells), "|");
      Trim(RowLine(row)) != "" && Trim(RowLine(row))[0] == '|' && StripBars(Trim(RowLine(row))) == body
  {
    hide IsSpace, Blank, Trim, Join;
    FirstSpace();
    var body, close := Join(Lines(row.cells), "|"), if row.closed then "|" else "";
    var kept := "|" + (body + close);
    assert RowLine(row) == row.before + (kept + row.after);
    assert kept[1..] == body + close && (body + "|")[..|body|] == body;
    if !row.closed {
      UnclosedEnds(row);
      assert body + close == body;
    }
    TrimPadded(row.before, kept, row.after);
  }

  lemma UnclosedEnds(row: RowText)
    requires LegalRow(row) && !row.closed
    ensures var body := Join(Lines(row.cells), "|");
      body != "" && body[|body| - 1] != '|' && !IsSpace(body[|body| - 1])
  {
    hide IsSpace, Join;
    var last := row.cells[|row.cells| - 1];
    assert last in row.cells;
    assert Lines(row.cells)[|row.cells| - 1] == Line(last) == last.before + last.text;
    JoinEnds(Lines(row.cells), "|");
    assert Line(last)[|Line(last)| - 1] == last.text[|last.text| - 1];
  }

  lemma RowReads(row: RowText)
    requires LegalRow(row)
    ensures SplitRow(RowLine(row)) == TextsOf(row.cells) && IsTableRow(RowLine(row))
    ensures Indent(RowLine(row)) == |row.before| < |RowLine(row)| && RowLine(row)[|row.before|] == '|'
  {
    hide IsSpace, Trim, StripBars, Split, Join;
    FirstSpace();
    RowStrips(row);
    CellsRead(row.cells);
    var line := RowLine(row);
    assert Trim(line)[..1] == "|";
    assert line[..|row.before|] == row.before && line[|row.before|] == '|';
    IndentIs(line, |row.before|);
  }

  function RowLines(rows: seq<RowText>): (lines: seq<string>)
    ensures |lines| == |rows|
  {
    seq(|rows|, i requires 0 <= i < |rows| => RowLine(rows[i]))
  }

  lemma {:induction false} RowRunIs(rows: seq<RowText>, after: seq<string>)
    requires (forall r :: r in rows ==> LegalRow(r)) && Ends(after)
    ensures RowRun(RowLines(rows) + after) == |rows|
  {
    hide IsTableRow, RowLine, LegalRow, Indent, SplitRow, Blank;
    var all := RowLines(rows) + after;
    if rows == [] {
      assert all == after;
      if after != [] { BlankOpensNothing(after[0]); }
    } else {
      assert rows[0] in rows && forall r :: r in rows[1..] ==> r in rows;
      RowReads(rows[0]);
      assert all[1..] == RowLines(rows[1..]) + after;
      RowRunIs(rows[1..], after);
    }
  }

  /** A rule is a row of bars, colons, dashes and white space. */
  lemma RuleIff(line: string)
    ensures LegalRule(line) <==> IsTableRow(line) && IsSeparator(line)
  {
    hide IsSpace, Trim, Indent;
    if Indent(line) < |line| {
      LineStart(line);
      assert Trim(line)[..1] == [line[Indent(line)]];
    } else {
      assert line[..Indent(line)] == line;
      BlankOpensNothing(line);
    }
  }

  lemma RowOpensNothingEarlier(line: string)
    requires Indent(line) < |line| && line[Indent(line)] == '|'
    ensures !Blank(line) && !IsFence(line) && !IsHeading(line) && !StartsQuote(line)
  {
    hide IsSpace, Trim, TrimStart;
    FirstSpace();
    LineStart(line);
    FirstOf(line, FENCE);
    FirstOf(line, "### ");
    FirstOf(line, "#### ");
    FirstOf(TrimStart(line), "> ");
    if Indent(line) > 0 { assert line[..Indent(line)][0] == line[0]; }
  }

  lemma TableReads(header: RowText, rule: string, rows: seq<RowText>, after: seq<string>)
    requires LegalBlock(TableLines(header, rule, rows)) && Ends(after)
    ensures var b := TableLines(header, rule, rows);
      && !Blank(BlockLines(b)[0])
      && Opened(BlockLines(b) + after) == Some((BlockOf(b), |BlockLines(b)|))
  {
    hide IsTableRow, IsSeparator, SplitRow, RowLine, Blank, LegalRow, Indent, LegalRule, StartsQuote, IsHeading,
      IsFence;
    var b := TableLines(header, rule, rows);
    var all := BlockLines(b) + after;
    assert BlockLines(b) == [RowLine(header), rule] + RowLines(rows);
    assert all[0] == RowLine(header) && all[1] == rule && all[2..] == RowLines(rows) + after;
    RowReads(header);
    RowOpensNothingEarlier(all[0]);
    RuleIff(rule);
    RowRunIs(rows, after);
    assert all[2..|rows| + 2] == RowLines(rows);
    forall i | 0 <= i < |rows| ensures SplitRow(RowLines(rows)[i]) == TextsOf(rows[i].cells) {
      assert rows[i] in rows;
      RowReads(rows[i]);
    }
    assert SplitRows(RowLines(rows)) == BlockOf(b).rows;
  }

  // ---------------------------------------------------------------------------------------------
  // Paragraphs
  // ---------------------------------------------------------------------------------------------

  /** Trimmed text that is not white space, and opens no block but perhaps a table. */
  lemma ParagraphLine(p: Padded)
    requires LegalPadded(p) && p.text != "" && !OpensBlock(p)
    ensures var line := Line(p);
      && !Blank(line) && !IsFence(line) && !IsHeading(line) && !StartsQuote(line) && ItemOf(line).None?
      && Trim(line) == p.text && (IsTableRow(line) <==> p.text[0] == '|')
      && Indent(line) == |p.before|
  {
    hide IsSpace, Trim, TrimStart, Indent, ItemOf, IsItemLine;
    PaddedFacts(p);
    ItemLineIff(Line(p));
    assert p.text[..1] == [p.text[0]];
    QuoteStart(p.text, p.after);
  }

  lemma QuoteStart(text: string, after: string)
    requires text != ""
    ensures StartsWith(text + after, "> ") ==> text == ">" || StartsWith(text, "> ")
  {
    assert |text| == 1 ==> (text + after)[..1] == text;
    assert |text| > 1 ==> (text + after)[..2] == text[..2];
    assert |text + after| >= 2 ==> (text + after)[..2][..1] == (text + after)[..1];
  }

  /** The lines of a paragraph. */
  ghost predicate Plain(ps: seq<Padded>) {
    && (forall p :: p in ps ==> LegalPadded(p) && p.text != "" && !OpensBlock(p))
    && forall i, j :: 0 <= i < j < |ps| && j == i + 1 && ps[i].text[0] == '|' ==> !LegalRule(Line(ps[j]))
  }

  lemma PlainRest(ps: seq<Padded>)
    requires Plain(ps) && ps != []
    ensures Plain(ps[1..])
  {
    forall p | p in ps[1..] ensures LegalPadded(p) && p.text != "" && !OpensBlock(p) {
      assert p in ps;
    }
    forall i, j | 0 <= i < j < |ps[1..]| && j == i + 1 && ps[1..][i].text[0] == '|'
      ensures !LegalRule(Line(ps[1..][j]))
    {
      assert ps[1..][i] == ps[i + 1] && ps[1..][j] == ps[j + 1];
    }
  }

  lemma NothingOpens(ps: seq<Padded>, after: seq<string>)
    requires Plain(ps) && ps != [] && Ends(after)
    ensures !Blank(Line(ps[0])) && Opened(Lines(ps) + after).None?
  {
    hide IsFence, IsHeading, StartsQuote, ItemOf, IsTableRow, IsSeparator, OpensBlock, LegalPadded, LegalRule, Blank,
      Line, Trim, Indent;
    var all := Lines(ps) + after;
    assert ps[0] in ps && all[0] == Line(ps[0]);
    ParagraphLine(ps[0]);
    if |ps| > 1 {
      assert all[1] == Line(ps[1]);
      RuleIff(all[1]);
    } else if after != [] {
      assert all[1] == after[0];
      BlankOpensNothing(after[0]);
    }
  }

  lemma {:induction false} ParagraphRun(ps: seq<Padded>, after: seq<string>, para: seq<string>)
    requires Plain(ps) && Ends(after)
    ensures Pieces(Lines(ps) + after, para) == Pieces(after, para + Lines(ps))
    decreases |ps|
  {
    hide Opened, Plain, Blank, Line;
    if ps == [] {
      assert Lines(ps) + after == after && para + Lines(ps) == para;
    } else {
      NothingOpens(ps, after);
      PlainRest(ps);
      assert (Lines(ps) + after)[1..] == Lines(ps[1..]) + after;
      ParagraphRun(ps[1..], after, para + [Line(ps[0])]);
      assert para + [Line(ps[0])] + Lines(ps[1..]) == para + Lines(ps);
    }
  }

  lemma {:induction false} JoinTrimmed(texts: seq<string>)
    requires texts != [] && forall t :: t in texts ==> t != "" && Trimmed(t)
    ensures Trimmed(Join(texts, " ")) && Join(texts, " ") != "" && Join(texts, " ")[0] == texts[0][0]
  {
    hide IsSpace;
    assert texts[0] in texts;
    if |texts| > 1 {
      assert forall t :: t in texts[1..] ==> t in texts;
      JoinTrimmed(texts[1..]);
      var tail := Join(texts[1..], " ");
      assert Join(texts, " ")[|Join(texts, " ")| - 1] == tail[|tail| - 1];
    }
  }

  lemma ParagraphFlushes(ps: seq<Padded>)
    requires Plain(ps) && ps != []
    ensures BlocksOf(Flush(Lines(ps))) == [BlockOf(ParagraphLines(ps))]
  {
    hide Plain, Line, Trim, Trimmed, Join, TrimAll, TextsOf, Flush, BlocksOf, TrimStart, Lines;
    ParagraphBlock(ps);
    TextsTrim(ps);
    JoinTrimmed(TextsOf(ps));
    TrimKeepsTrimmed(Join(TextsOf(ps), " "));
    FlushIs(Lines(ps));
  }

  lemma ParagraphBlock(ps: seq<Padded>)
    ensures BlockOf(ParagraphLines(ps)) == Paragraph(Join(TextsOf(ps), " "))
  {}

  lemma FlushIs(para: seq<string>)
    requires para != []
    ensures BlocksOf(Flush(para)) == [Paragraph(Trim(Join(TrimAll(para), " ")))]
  {
    hide Trim, Join;
    var flushed := Flush(para);
    assert flushed[1..] == [];
  }

  lemma TextsTrim(ps: seq<Padded>)
    requires Plain(ps)
    ensures TrimAll(Lines(ps)) == TextsOf(ps)
    ensures forall t :: t in TextsOf(ps) ==> t != "" && Trimmed(t)
  {
    hide OpensBlock, Line, Trim, Trimmed, Indent, LegalRule;
    forall i | 0 <= i < |ps| ensures Trim(Lines(ps)[i]) == ps[i].text && Trimmed(ps[i].text) {
      assert ps[i] in ps;
      PaddedFacts(ps[i]);
    }
  }

  lemma ParagraphReads(ps: seq<Padded>, after: seq<string>)
    requires LegalParagraph(ps) && Ends(after)
    ensures ParseLines(Lines(ps) + after) == [BlockOf(ParagraphLines(ps))] + ParseLines(after)
  {
    hide Pieces, LegalPadded, OpensBlock, LegalRule, BlockOf, Line, Flush;
    var para := Lines(ps);
    ParagraphRun(ps, after, []);
    assert [] + para == para;
    ParagraphFlushes(ps);
    FlushedAtTheEnd(para, after);
    BlocksOfAppend(Flush(para), Pieces(after, []));
  }

  lemma FlushedAtTheEnd(para: seq<string>, after: seq<string>)
    requires Ends(after)
    ensures Pieces(after, para) == Flush(para) + Pieces(after, [])
  {
    hide Opened, Blank, Flush;
    NoFlush();
    assert Flush(para) + [] == Flush(para);
    if after != [] { BlankSkipped(after); }
  }

  lemma NoFlush()
    ensures Flush([]) == []
  {}

  // ---------------------------------------------------------------------------------------------
  // Lists
  // ---------------------------------------------------------------------------------------------

  /** The result of a list run that started n lines earlier. */
  function Later(r: (seq<Item>, nat), n: nat): (seq<Item>, nat) { (r.0, r.1 + n) }

  /** A blank line that the list goes on after, if there is one. */
  lemma GapRead(gap: Option<string>, more: seq<string>, items: seq<Item>)
    requires LegalGap(gap) && more != [] && (ItemOf(more[0]).Some? || IsWrap(more[0]))
    ensures ListRun(GapLines(gap) + more, items) == Later(ListRun(more, items), |GapLines(gap)|)
  {
    hide ItemOf, IsWrap, Blank;
    if gap.Some? {
      assert (GapLines(gap) + more)[1..] == more && (GapLines(gap) + more)[0] == gap.value;
    } else {
      assert GapLines(gap) + more == more;
    }
  }

  lemma WrapReads(w: Wrap)
    requires LegalWrap(w)
    ensures var line := Line(w.line);
      !Blank(line) && ItemOf(line).None? && IsWrap(line) && Trim(line) == w.line.text
  {
    hide ItemOf, IsItemLine, Blank, Trim, Indent, Line, TrimStart, LegalPadded;
    PaddedFacts(w.line);
    ItemLineIff(Line(w.line));
  }

  lemma ListTakesWrap(line: string, more: seq<string>, items: seq<Item>)
    requires !Blank(line) && ItemOf(line).None? && IsWrap(line) && items != []
    ensures ListRun([line] + more, items) == Later(ListRun(more, AddText(items, Trim(line))), 1)
  {
    hide Blank, ItemOf, IsWrap, AddText, Trim;
    assert ([line] + more)[1..] == more;
  }

  /** The wrapped lines of an item without children. */
  lemma {:induction false} WrapsRead(wraps: seq<Wrap>, more: seq<string>, items: seq<Item>, text: string)
    requires forall w :: w in wraps ==> LegalWrap(w)
    ensures ListRun(WrapLines(wraps) + more, items + [Item(text, [])])
         == Later(ListRun(more, items + [Item(Continued(text, wraps), [])]), |WrapLines(wraps)|)
    decreases |wraps|
  {
    hide ListRun, LegalWrap, Line, ItemOf, IsWrap, Blank, Trim;
    if wraps == [] {
      assert WrapLines(wraps) + more == more;
    } else {
      var w, rest := wraps[0], WrapLines(wraps[1..]) + more;
      assert w in wraps && forall x :: x in wraps[1..] ==> x in wraps;
      WrapReads(w);
      Assoc(GapLines(w.gap), [Line(w.line)] + WrapLines(wraps[1..]), more);
      Assoc([Line(w.line)], WrapLines(wraps[1..]), more);
      var last := items + [Item(text, [])];
      assert LegalGap(w.gap) by { WrapGap(w); }
      GapRead(w.gap, [Line(w.line)] + rest, last);
      ListTakesWrap(Line(w.line), rest, last);
      assert AddText(last, w.line.text) == items + [Item(text + " " + w.line.text, [])];
      WrapsRead(wraps[1..], more, items, text + " " + w.line.text);
    }
  }

  lemma WrapGap(w: Wrap)
    requires LegalWrap(w)
    ensures LegalGap(w.gap)
  {}

  /** The wrapped lines of a child. */
  lemma {:induction false} ChildWrapsRead(
    wraps: seq<Wrap>, more: seq<string>, items: seq<Item>, last: Item, front: seq<Item>, text: string)
    requires forall w :: w in wraps ==> LegalWrap(w)
    ensures ListRun(WrapLines(wraps) + more, items + [last.(children := front + [Item(text, [])])])
         == Later(ListRun(more, items + [last.(children := front + [Item(Continued(text, wraps), [])])]),
                  |WrapLines(wraps)|)
    decreases |wraps|
  {
    hide ListRun, LegalWrap, Line, ItemOf, IsWrap, Blank, Trim, AddText;
    if wraps == [] {
      assert WrapLines(wraps) + more == more;
    } else {
      var w, rest := wraps[0], WrapLines(wraps[1..]) + more;
      assert w in wraps && forall x :: x in wraps[1..] ==> x in wraps;
      WrapReads(w);
      WrapGap(w);
      Assoc(GapLines(w.gap), [Line(w.line)] + WrapLines(wraps[1..]), more);
      Assoc([Line(w.line)], WrapLines(wraps[1..]), more);
      var all := items + [last.(children := front + [Item(text, [])])];
      GapRead(w.gap, [Line(w.line)] + rest, all);
      ListTakesWrap(Line(w.line), rest, all);
      ChildTextAdded(items, last, front, text, w.line.text);
      ChildWrapsRead(wraps[1..], more, items, last, front, text + " " + w.line.text);
    }
  }

  lemma ChildTextAdded(items: seq<Item>, last: Item, front: seq<Item>, text: string, more: string)
    ensures AddText(items + [last.(children := front + [Item(text, [])])], more)
         == items + [last.(children := front + [Item(text + " " + more, [])])]
  {
    var children := front + [Item(text, [])];
    var renewed := Item(text + " " + more, []);
    assert children[|children| - 1 := renewed] == front + [renewed];
    var all := items + [last.(children := children)];
    assert all[|all| - 1 := last.(children := front + [renewed])] == items + [last.(children := front + [renewed])];
  }

  lemma ListTakesItem(line: string, indent: nat, text: string, more: seq<string>, items: seq<Item>)
    requires !Blank(line) && ItemOf(line) == Some((indent, text))
    ensures ListRun([line] + more, items) == Later(ListRun(more, AddItem(items, indent, text)), 1)
  {
    hide Blank, ItemOf, AddItem;
    assert ([line] + more)[1..] == more;
  }

  lemma EntryReads(e: Entry)
    requires LegalEntry(e)
    ensures var line := EntryLine(e);
      && Indent(line) == |e.indent| < |line| && !Blank(line)
      && ItemOf(line) == Some((|e.indent|, e.text)) && Bullet(line).None? == e.mark.Numbered?
    ensures !IsFence(EntryLine(e)) && !IsHeading(EntryLine(e)) && !StartsQuote(EntryLine(e))
    ensures !IsTableRow(EntryLine(e))
  {
    hide ItemOf, Bullet, ItemLine, Blank, IsFence, IsHeading, StartsQuote, IsTableRow, IsSpace, MarkText, LegalWrap;
    ItemReads(e.indent, e.mark, e.space, e.text);
    MarkFacts(e.mark);
    LineStart(EntryLine(e));
    OpensAtMostAList(EntryLine(e));
  }

  lemma EntryGap(e: Entry)
    requires LegalEntry(e)
    ensures LegalGap(e.gap) && forall w :: w in e.wraps ==> LegalWrap(w)
  {}

  /** One item, before any children. */
  lemma EntryRead(e: Entry, more: seq<string>, items: seq<Item>)
    requires LegalEntry(e) && |e.indent| < 2
    ensures ListRun(EntryLines(e) + more, items)
         == Later(ListRun(more, items + [Item(Continued(e.text, e.wraps), [])]), |EntryLines(e)|)
  {
    hide ListRun, LegalEntry, EntryLine, ItemOf, Blank, LegalWrap, Bullet, Indent;
    var line, rest := EntryLine(e), WrapLines(e.wraps) + more;
    EntryReads(e);
    EntryGap(e);
    Assoc(GapLines(e.gap), [line] + WrapLines(e.wraps), more);
    Assoc([line], WrapLines(e.wraps), more);
    GapRead(e.gap, [line] + rest, items);
    ListTakesItem(line, |e.indent|, e.text, rest, items);
    WrapsRead(e.wraps, more, items, e.text);
  }

  lemma ChildRead(e: Entry, more: seq<string>, items: seq<Item>, last: Item)
    requires LegalEntry(e) && |e.indent| >= 2
    ensures ListRun(EntryLines(e) + more, items + [last])
         == Later(ListRun(more, items + [last.(children := last.children + [Item(Continued(e.text, e.wraps), [])])]),
                  |EntryLines(e)|)
  {
    hide ListRun, LegalEntry, EntryLine, ItemOf, Blank, LegalWrap, Bullet, Indent;
    var line, rest := EntryLine(e), WrapLines(e.wraps) + more;
    EntryReads(e);
    EntryGap(e);
    Assoc(GapLines(e.gap), [line] + WrapLines(e.wraps), more);
    Assoc([line], WrapLines(e.wraps), more);
    GapRead(e.gap, [line] + rest, items + [last]);
    ListTakesItem(line, |e.indent|, e.text, rest, items + [last]);
    var last' := last.(children := last.children + [Item(e.text, [])]);
    assert (items + [last])[|items| := last'] == items + [last'];
    ChildWrapsRead(e.wraps, more, items, last, last.children, e.text);
  }

  lemma {:induction false} ChildrenRead(children: seq<Entry>, more: seq<string>, items: seq<Item>, last: Item)
    requires forall c :: c in children ==> LegalEntry(c) && |c.indent| >= 2
    ensures ListRun(ChildLines(children) + more, items + [last])
         == Later(ListRun(more, items + [last.(children := last.children + ChildItems(children))]),
                  |ChildLines(children)|)
    decreases |children|
  {
    hide ListRun, LegalEntry, EntryLines;
    if children == [] {
      assert ChildLines(children) + more == more && last.children + [] == last.children;
    } else {
      var c, rest := children[0], ChildLines(children[1..]) + more;
      assert c in children && forall x :: x in children[1..] ==> x in children;
      Assoc(EntryLines(c), ChildLines(children[1..]), more);
      ChildRead(c, rest, items, last);
      var first := Item(Continued(c.text, c.wraps), []);
      var last' := last.(children := last.children + [first]);
      ChildrenRead(children[1..], more, items, last');
      assert last.children + [first] + ChildItems(children[1..]) == last.children + ChildItems(children);
    }
  }

  lemma {:induction false} ItemsRead(tops: seq<Top>, more: seq<string>, items: seq<Item>)
    requires forall t :: t in tops ==> LegalTop(t)
    ensures ListRun(ListLines(tops) + more, items) == Later(ListRun(more, items + Items(tops)), |ListLines(tops)|)
    decreases |tops|
  {
    hide ListRun, LegalEntry, EntryLines, ChildLines, ChildItems, Continued;
    if tops == [] {
      assert ListLines(tops) + more == more && items + Items(tops) == items;
    } else {
      var t := tops[0];
      assert t in tops && forall x :: x in tops[1..] ==> x in tops;
      var later := ListLines(tops[1..]) + more;
      Assoc(EntryLines(t.entry), ChildLines(t.children) + ListLines(tops[1..]), more);
      Assoc(ChildLines(t.children), ListLines(tops[1..]), more);
      EntryRead(t.entry, ChildLines(t.children) + later, items);
      ChildrenRead(t.children, later, items, Item(Continued(t.entry.text, t.entry.wraps), []));
      assert [] + ChildItems(t.children) == ChildItems(t.children);
      ItemsRead(tops[1..], more, items + [Items(tops)[0]]);
      assert items + [Items(tops)[0]] + Items(tops[1..]) == items + Items(tops);
    }
  }

  // ---------------------------------------------------------------------------------------------
  // Documents
  // ---------------------------------------------------------------------------------------------

  lemma ListStart(b: Layout, more: seq<string>)
    requires b.ListEntries? && LegalBlock(b)
    ensures var lines := BlockLines(b) + more;
      && lines != [] && !Blank(lines[0]) && ItemOf(lines[0]).Some?
      && Bullet(lines[0]).None? == BlockOf(b).ordered
      && !IsFence(lines[0]) && !IsHeading(lines[0]) && !StartsQuote(lines[0]) && !StartsTable(lines)
  {
    hide ItemOf, Bullet, Blank, IsFence, IsHeading, StartsQuote, IsTableRow, IsSeparator, LegalEntry, Indent, EntryLine;
    var e := b.items[0].entry;
    assert b.items[0] in b.items;
    EntryReads(e);
    assert EntryLines(e)[0] == EntryLine(e);
  }

  /** What a list run makes of blank lines and the rest of the document after them: it goes on into the lists that a
      single blank line joins to it, and ends there. */
  lemma ListEnds(blanks: seq<string>, more: seq<string>, items: seq<Item>)
    requires forall l :: l in blanks ==> Blank(l)
    requires blanks == [] ==> more == []
    requires |blanks| == 1 && more != [] ==> ItemOf(more[0]).None? && !IsWrap(more[0])
    ensures ListRun(blanks + more, items) == (items, 0)
  {
    hide ItemOf, IsWrap, Blank;
    if |blanks| > 1 {
      assert (blanks + more)[1] == blanks[1];
      BlankOpensNothing(blanks[1]);
    }
  }

  lemma OthersStart(b: Layout, more: seq<string>)
    requires LegalBlock(b) && !b.ListEntries?
    ensures var lines := BlockLines(b) + more; lines != [] && ItemOf(lines[0]).None? && !IsWrap(lines[0])
  {
    hide ItemOf, Indent, IsSpace, RowLine, LegalRow, IsItemLine, IsTableRow, SplitRow;
    FirstSpace();
    var line := (BlockLines(b) + more)[0];
    match b
    case HeadingLine(level, space, text) =>
      HeadingMeans(level, space, text);
      Unindented(line);
      NoItem(line);
    case ParagraphLines(parts) =>
      assert parts[0] in parts;
      ParagraphLine(parts[0]);
    case QuoteLines(quoted) =>
      assert quoted[0] in quoted;
      QuoteLineReads(quoted[0]);
      NoItem(line);
    case CodeLines(info, _, _) =>
      FenceIs(info);
      Unindented(line);
      NoItem(line);
    case TableLines(header, _, _) =>
      RowReads(header);
      NoItem(line);
  }

  lemma DocStarts(doc: seq<Placed>)
    requires LegalDoc(doc) && doc != []
    ensures var lines := DocLines(doc);
      && lines != []
      && (doc[0].block.ListEntries? ==> ItemOf(lines[0]).Some?)
      && (!doc[0].block.ListEntries? ==> ItemOf(lines[0]).None? && !IsWrap(lines[0]))
  {
    hide ItemOf, IsWrap, BlockLines, LegalBlock;
    var more := doc[0].blanks + DocLines(doc[1..]);
    if doc[0].block.ListEntries? {
      ListStart(doc[0].block, more);
    } else {
      OthersStart(doc[0].block, more);
    }
  }

  /** The rest of a list run: the lists joined to the one before it. */
  lemma {:induction false} JoinedRead(doc: seq<Placed>, items: seq<Item>) returns (n: nat)
    requires LegalDoc(doc) && doc != [] && doc[0].block.ListEntries?
    ensures n <= |DocLines(doc)|
    ensures ListRun(DocLines(doc), items) == (items + JoinedItems(doc), n)
    ensures var last := doc[JoinedLists(doc) - 1]; DocLines(doc)[n..] == last.blanks + DocLines(doc[JoinedLists(doc)..])
    decreases |doc|
  {
    hide ListRun, ItemOf, IsWrap, LegalBlock, LegalTop, Blank, Items, BlockLines, DocLines, ListLines, LegalPlace;
    var b, blanks, rest := doc[0].block, doc[0].blanks, DocLines(doc[1..]);
    var printed, items' := BlockLines(b), items + Items(b.items);
    DocSplits(doc);
    ListTops(b);
    ItemsRead(b.items, blanks + rest, items);
    if JoinsNext(doc) {
      JoinGoesOn(doc, items');
      var m := JoinedRead(doc[1..], items');
      n := |printed| + |blanks| + m;
      Assoc(items, Items(b.items), JoinedItems(doc[1..]));
      DropFront(printed, blanks, rest, m);
      assert doc[1..][JoinedLists(doc[1..]) - 1] == doc[JoinedLists(doc) - 1];
      assert doc[1..][JoinedLists(doc[1..])..] == doc[JoinedLists(doc)..];
    } else {
      JoinEndsHere(doc, items');
      n := |printed|;
      assert (printed + (blanks + rest))[n..] == blanks + rest;
      assert Items(b.items) + [] == Items(b.items);
    }
  }

  lemma DocSplits(doc: seq<Placed>)
    requires LegalDoc(doc) && doc != []
    ensures DocLines(doc) == BlockLines(doc[0].block) + (doc[0].blanks + DocLines(doc[1..]))
    ensures LegalBlock(doc[0].block) && LegalDoc(doc[1..]) && forall l :: l in doc[0].blanks ==> Blank(l)
  {}

  lemma JoinGoesOn(doc: seq<Placed>, items: seq<Item>)
    requires LegalDoc(doc) && doc != [] && JoinsNext(doc)
    ensures var rest := DocLines(doc[1..]); ListRun(doc[0].blanks + rest, items) == Later(ListRun(rest, items), 1)
  {
    hide ListRun, ItemOf, IsWrap, LegalBlock, Blank, BlockLines, DocLines;
    var blank := doc[0].blanks[0];
    DocSplits(doc);
    DocStarts(doc[1..]);
    GapRead(Some(blank), DocLines(doc[1..]), items);
    assert GapLines(Some(blank)) == [blank] == doc[0].blanks;
  }

  lemma JoinEndsHere(doc: seq<Placed>, items: seq<Item>)
    requires LegalDoc(doc) && doc != [] && doc[0].block.ListEntries? && !JoinsNext(doc)
    ensures ListRun(doc[0].blanks + DocLines(doc[1..]), items) == (items, 0)
  {
    hide ListRun, ItemOf, IsWrap, LegalBlock, Blank, BlockLines;
    if doc[1..] != [] { DocStarts(doc[1..]); }
    ListEnds(doc[0].blanks, DocLines(doc[1..]), items);
  }

  lemma ListTops(b: Layout)
    requires b.ListEntries? && LegalBlock(b)
    ensures forall t :: t in b.items ==> LegalTop(t)
    ensures BlockLines(b) == ListLines(b.items)
  {}

  lemma DropFront<T>(a: seq<T>, b: seq<T>, c: seq<T>, m: nat)
    requires m <= |c|
    ensures (a + (b + c))[|a| + |b| + m..] == c[m..]
  {}

  lemma BlockReads(b: Layout, after: seq<string>)
    requires LegalBlock(b) && !b.ParagraphLines? && !b.ListEntries?
    requires b.HeadingLine? || b.CodeLines? || Ends(after)
    requires b.CodeLines? && b.closing.None? ==> after == []
    ensures var printed := BlockLines(b);
      && printed != [] && !Blank(printed[0]) && Opened(printed + after) == Some((BlockOf(b), |printed|))
  {
    hide Opened, Blank, IsSpace, RowLine, QuotedLine, LegalRow, LegalRule, LegalQuoteLine;
    match b
    case HeadingLine(level, space, text) => HeadingReads(level, space, text, after);
    case QuoteLines(lines) => QuoteReads(lines, after);
    case CodeLines(_, _, _) => CodeReads(b, after);
    case TableLines(header, rule, rows) => TableReads(header, rule, rows, after);
  }

  /** The blocks after one opened block. */
  lemma AfterOpened(lines: seq<string>, b: Block, n: nat)
    requires lines != [] && !Blank(lines[0]) && Opened(lines) == Some((b, n)) && n <= |lines|
    ensures ParseLines(lines) == [b] + ParseLines(lines[n..])
  {
    hide Opened, Blank;
    var piece, tail := Used(b, lines[..n]), Pieces(lines[n..], []);
    assert Pieces(lines, []) == [piece] + tail;
    assert ([piece] + tail)[1..] == tail;
  }

  lemma {:induction false} BlanksSkipped(blanks: seq<string>, more: seq<string>)
    requires forall l :: l in blanks ==> Blank(l)
    ensures ParseLines(blanks + more) == ParseLines(more)
  {
    hide ParseLines, Blank;
    if blanks == [] {
      assert blanks + more == more;
    } else {
      assert blanks[0] in blanks && forall l :: l in blanks[1..] ==> l in blanks;
      assert (blanks + more)[1..] == blanks[1..] + more;
      BlankSkipped(blanks + more);
      BlanksSkipped(blanks[1..], more);
    }
  }

  lemma BlankSkipped(lines: seq<string>)
    requires lines != [] && Blank(lines[0])
    ensures Pieces(lines, []) == [Gap(lines[0])] + Pieces(lines[1..], [])
    ensures ParseLines(lines) == ParseLines(lines[1..])
  {
    hide Opened, Blank;
    var piece, tail := Gap(lines[0]), Pieces(lines[1..], []);
    assert Pieces(lines, []) == Flush([]) + ([piece] + tail) == [piece] + tail;
    assert ([piece] + tail)[1..] == tail;
  }

  lemma {:induction false} LegalRest(doc: seq<Placed>, n: nat)
    requires LegalDoc(doc) && n <= |doc|
    ensures LegalDoc(doc[n..])
  {
    hide LegalPlace;
    if n == 0 {
      assert doc[0..] == doc;
    } else {
      LegalRest(doc[1..], n - 1);
      assert doc[1..][n - 1..] == doc[n..];
    }
  }

  lemma {:induction false} LegalAt(doc: seq<Placed>, n: nat)
    requires LegalDoc(doc) && n < |doc|
    ensures LegalPlace(doc[n], DocLines(doc[n + 1..]))
  {
    LegalRest(doc, n);
    assert doc[n..][1..] == doc[n + 1..];
  }

  /** A group of joined lists reads as one list. */
  lemma ListsRead(doc: seq<Placed>)
    requires LegalDoc(doc) && doc != [] && doc[0].block.ListEntries?
    ensures ParseLines(DocLines(doc))
         == [List(BlockOf(doc[0].block).ordered, JoinedItems(doc))] + ParseLines(DocLines(doc[JoinedLists(doc)..]))
  {
    hide ParseLines, ListRun, Blank, ItemOf, Bullet, IsFence, IsHeading, StartsQuote, StartsTable, BlockLines,
      LegalBlock, DocLines, LegalDoc, JoinedItems, Items;
    var lines, k := DocLines(doc), JoinedLists(doc);
    DocSplits(doc);
    ListStart(doc[0].block, doc[0].blanks + DocLines(doc[1..]));
    var n := JoinedRead(doc, []);
    assert [] + JoinedItems(doc) == JoinedItems(doc);
    AfterOpened(lines, List(BlockOf(doc[0].block).ordered, JoinedItems(doc)), n);
    LegalAt(doc, k - 1);
    BlanksSkipped(doc[k - 1].blanks, DocLines(doc[k..]));
  }

  /** What the lines of a document parse to. */
  lemma {:induction false} DocReads(doc: seq<Placed>)
    requires LegalDoc(doc)
    ensures ParseLines(DocLines(doc)) == Meaning(doc)
    decreases |doc|
  {
    hide ParseLines, LegalBlock, BlockLines, BlockOf, Opened, Blank, JoinedItems;
    if doc == [] {
      NothingToRead();
    } else if doc[0].block.ListEntries? {
      ListsRead(doc);
      LegalRest(doc, JoinedLists(doc));
      DocReads(doc[JoinedLists(doc)..]);
    } else {
      var b, rest := doc[0].block, DocLines(doc[1..]);
      var after := doc[0].blanks + rest;
      DocReads(doc[1..]);
      BlanksSkipped(doc[0].blanks, rest);
      if b.ParagraphLines? {
        ParagraphIs(b);
        ParagraphReads(b.parts, after);
      } else {
        BlockReads(b, after);
        var lines := BlockLines(b) + after;
        assert lines[|BlockLines(b)|..] == after;
        AfterOpened(lines, BlockOf(b), |BlockLines(b)|);
      }
    }
  }

  lemma ParagraphIs(b: Layout)
    requires b.ParagraphLines? && LegalBlock(b)
    ensures BlockLines(b) == Lines(b.parts) && LegalParagraph(b.parts)
  {}

  lemma NothingToRead()
    ensures ParseLines([]) == [] && ParseLines([""]) == []
  {
    BlanksSkipped([""], []);
    assert [""] + [] == [""];
  }

  /** The text of a document, after any blank lines. */
  function Write(lead: seq<string>, doc: seq<Placed>): string { Join(lead + DocLines(doc), "\n") }

  /** What an author may write: every line on one line, blocks as above. */
  ghost predicate Legal(lead: seq<string>, doc: seq<Placed>) {
    && (forall l :: l in lead ==> Blank(l)) && LegalDoc(doc)
    && forall l :: l in lead + DocLines(doc) ==> '\n' !in l
  }

  /** However a document is laid out, parsing its text gives the document: any white space, any item numbers and
      marks, wrapped items, blank lines between items, rows with or without a closing bar, code with or without a
      closing fence. Only lists with a single blank line between them read as one. */
  lemma ParseWritten(lead: seq<string>, doc: seq<Placed>)
    requires Legal(lead, doc)
    ensures Parse(Write(lead, doc)) == Meaning(doc)
  {
    hide ParseLines, LegalDoc, DocLines, Meaning;
    var lines := lead + DocLines(doc);
    DocReads(doc);
    BlanksSkipped(lead, DocLines(doc));
    if lines == [] {
      NothingToRead();
      assert Split("", '\n') == [""];
    } else {
      SplitJoin(lines, '\n');
    }
  }

  /** No two lists have a single blank line between them. */
  ghost predicate ListsApart(doc: seq<Placed>) {
    forall i, j :: 0 <= i < j < |doc| && j == i + 1 && doc[i].block.ListEntries? && doc[j].block.ListEntries? ==>
      |doc[i].blanks| != 1
  }

  /** Joining changes nothing exactly when no two lists are joined. */
  lemma {:induction false} MeaningUnchanged(doc: seq<Placed>)
    ensures Meaning(doc) == BlocksIn(doc) <==> ListsApart(doc)
    decreases |doc|
  {
    hide BlockOf, Meaning, BlocksIn, JoinedItems;
    if doc == [] {
      NothingMeant();
    } else {
      var rest := doc[1..];
      if JoinsNext(doc) {
        JoiningShortens(doc);
        assert doc[1].block.ListEntries? && |doc[0].blanks| == 1;
      } else {
        MeaningUnchanged(rest);
        FirstBlock(doc);
        MeaningFirst(doc);
        var b := BlockOf(doc[0].block);
        assert ([b] + BlocksIn(rest))[1..] == BlocksIn(rest) && ([b] + Meaning(rest))[1..] == Meaning(rest);
        TailApart(doc);
      }
    }
  }

  lemma NothingMeant()
    ensures Meaning([]) == BlocksIn([])
  {}

  lemma JoiningShortens(doc: seq<Placed>)
    requires doc != [] && JoinsNext(doc)
    ensures |Meaning(doc)| < |doc|
  {
    hide BlockOf, JoinedItems;
    assert JoinedLists(doc) >= 2;
  }

  lemma FirstBlock(doc: seq<Placed>)
    requires doc != []
    ensures BlocksIn(doc) == [BlockOf(doc[0].block)] + BlocksIn(doc[1..])
  {
    hide BlockOf;
  }

  lemma MeaningFirst(doc: seq<Placed>)
    requires doc != [] && !JoinsNext(doc)
    ensures Meaning(doc) == [BlockOf(doc[0].block)] + Meaning(doc[1..])
  {
    hide BlockOf, JoinedItems;
    if doc[0].block.ListEntries? { NotJoined(doc); }
  }

  lemma NotJoined(doc: seq<Placed>)
    requires doc != [] && doc[0].block.ListEntries? && !JoinsNext(doc)
    ensures List(BlockOf(doc[0].block).ordered, JoinedItems(doc)) == BlockOf(doc[0].block)
  {
    var items := Items(doc[0].block.items);
    assert items + [] == items;
  }

  lemma TailApart(doc: seq<Placed>)
    requires doc != [] && !JoinsNext(doc)
    ensures ListsApart(doc) <==> ListsApart(doc[1..])
  {
    var rest := doc[1..];
    if ListsApart(doc) {
      forall i, j | 0 <= i < j < |rest| && j == i + 1 && rest[i].block.ListEntries? && rest[j].block.ListEntries?
        ensures |rest[i].blanks| != 1
      {
        assert doc[i + 1] == rest[i] && doc[j + 1] == rest[j];
      }
    }
    if ListsApart(rest) {
      forall i, j | 0 <= i < j < |doc| && j == i + 1 && doc[i].block.ListEntries? && doc[j].block.ListEntries?
        ensures |doc[i].blanks| != 1
      {
        if i > 0 { assert rest[i - 1] == doc[i] && rest[j - 1] == doc[j]; }
      }
    }
  }

  /** So each block comes back as it was written exactly when no two lists have a single blank line between them. */
  lemma RoundTrip(lead: seq<string>, doc: seq<Placed>)
    requires Legal(lead, doc)
    ensures Parse(Write(lead, doc)) == BlocksIn(doc) <==> ListsApart(doc)
  {
    hide Parse, Write, Legal;
    ParseWritten(lead, doc);
    MeaningUnchanged(doc);
  }

  // ---------------------------------------------------------------------------------------------
  // Every document can be written
  // ---------------------------------------------------------------------------------------------

  predicate OneLine(s: string) { '\n' !in s }

  ghost predicate CanonicalItems(items: seq<Item>) {
    items != [] && forall item :: item in items ==>
      ItemText(item.text) && forall c :: c in item.children ==> ItemText(c.text) && c.children == []
  }

  predicate CanonicalCells(cells: seq<string>) {
    cells != [] && forall c :: c in cells ==> Trimmed(c) && '|' !in c && OneLine(c)
  }

  /** The blocks a text can stand for. */
  ghost predicate Canonical(b: Block) {
    match b
    case Heading(level, text) => (level == 3 || level == 4) && OneLine(text) && (text != "" ==> !IsSpace(text[0]))
    case Paragraph(text) => text != "" && Trimmed(text) && OneLine(text) && !OpensBlock(Padded("", text, ""))
    case List(_, items) => CanonicalItems(items)
    case Quote(lines) => lines != [] && forall l :: l in lines ==> OneLine(l)
    case Code(lines) => forall l :: l in lines ==> OneLine(l) && !StartsWith(l, "```")
    case Table(header, rows) => CanonicalCells(header) && forall r :: r in rows ==> CanonicalCells(r)
  }

  function PlainMark(ordered: bool): Mark { if ordered then Numbered("1", '.') else Bulleted('-') }

  function PlainEntry(indent: string, mark: Mark, text: string): Entry { Entry(None, indent, mark, " ", text, []) }

  function PlainTop(ordered: bool, item: Item): Top {
    Top(PlainEntry("", PlainMark(ordered), item.text),
        seq(|item.children|, i requires 0 <= i < |item.children| =>
          PlainEntry("  ", Bulleted('-'), item.children[i].text)))
  }

  function PlainRow(cells: seq<string>): RowText {
    RowText("", seq(|cells|, i requires 0 <= i < |cells| => Padded("", cells[i], "")), true, "")
  }

  /** A block laid out without anything it does not need. */
  function Plainly(b: Block): Layout {
    match b
    case Heading(level, text) => HeadingLine(level, "", text)
    case Paragraph(text) => ParagraphLines([Padded("", text, "")])
    case List(ordered, items) =>
      ListEntries(seq(|items|, i requires 0 <= i < |items| => PlainTop(ordered, items[i])))
    case Quote(lines) => QuoteLines(seq(|lines|, i requires 0 <= i < |lines| => QuoteLine("", " ", lines[i])))
    case Code(lines) => CodeLines("", lines, Some(""))
    case Table(header, rows) =>
      TableLines(PlainRow(header), "|---|", seq(|rows|, i requires 0 <= i < |rows| => PlainRow(rows[i])))
  }

  /** Two blank lines after a list, so that no other list joins it, and one after any other block. */
  function PlainDoc(doc: seq<Block>): (placed: seq<Placed>)
    ensures |placed| == |doc|
  {
    seq(|doc|, i requires 0 <= i < |doc| => Placed(Plainly(doc[i]), if doc[i].List? then ["", ""] else [""]))
  }

  lemma PlainItem(item: Item, ordered: bool)
    requires forall c :: c in item.children ==> c.children == []
    ensures Items([PlainTop(ordered, item)]) == [item]
  {
    var t := PlainTop(ordered, item);
    assert ChildItems(t.children) == item.children by {
      forall i | 0 <= i < |item.children| ensures ChildItems(t.children)[i] == item.children[i] {
        assert item.children[i] in item.children;
      }
    }
  }

  lemma PlainCells(cells: seq<string>)
    requires CanonicalCells(cells)
    ensures TextsOf(PlainRow(cells).cells) == cells && LegalRow(PlainRow(cells))
  {
    forall c | c in PlainRow(cells).cells ensures LegalPadded(c) && '|' !in c.text {
      var i :| 0 <= i < |cells| && PlainRow(cells).cells[i] == c;
      assert cells[i] in cells;
    }
  }

  lemma PlainMeans(b: Block)
    requires Canonical(b)
    ensures BlockOf(Plainly(b)) == b
  {
    hide ItemText, PlainTop, Trimmed, OpensBlock, OneLine, CanonicalCells;
    match b
    case Paragraph(text) => assert TextsOf([Padded("", text, "")]) == [text];
    case List(ordered, items) =>
      var tops := Plainly(b).items;
      forall i | 0 <= i < |items| ensures Items(tops)[i] == items[i] {
        assert items[i] in items;
        PlainItem(items[i], ordered);
        assert Items(tops)[i] == Items([tops[i]])[0];
      }
      FirstMark(ordered, items[0]);
      assert Items(tops) == items;
    case Quote(lines) => assert BlockOf(Plainly(b)).lines == lines;
    case Table(header, rows) =>
      PlainCells(header);
      forall i | 0 <= i < |rows| ensures TextsOf(PlainRow(rows[i]).cells) == rows[i] {
        assert rows[i] in rows;
        PlainCells(rows[i]);
      }
      assert BlockOf(Plainly(b)).rows == rows;
    case _ =>
  }

  lemma FirstMark(ordered: bool, item: Item)
    ensures PlainTop(ordered, item).entry.mark == PlainMark(ordered)
  {}

  lemma PlainEntryIsLegal(indent: string, mark: Mark, text: string)
    requires Blank(indent) && LegalMark(mark) && ItemText(text)
    ensures LegalEntry(PlainEntry(indent, mark, text))
  {
    hide ItemText, IsSpace;
    FirstSpace();
  }

  lemma PlainTopIsLegal(ordered: bool, item: Item)
    requires ItemText(item.text) && forall c :: c in item.children ==> ItemText(c.text)
    ensures LegalTop(PlainTop(ordered, item))
  {
    hide ItemText, IsSpace, LegalEntry, PlainEntry;
    FirstSpace();
    PlainEntryIsLegal("", PlainMark(ordered), item.text);
    var t := PlainTop(ordered, item);
    forall c | c in t.children ensures LegalEntry(c) && |c.indent| >= 2 {
      var i :| 0 <= i < |item.children| && t.children[i] == c;
      assert item.children[i] in item.children;
      PlainEntryIsLegal("  ", Bulleted('-'), item.children[i].text);
      IndentOf("  ", Bulleted('-'), item.children[i].text);
    }
    IndentOf("", PlainMark(ordered), item.text);
  }

  lemma IndentOf(indent: string, mark: Mark, text: string)
    ensures PlainEntry(indent, mark, text).indent == indent
  {}

  lemma PlainIsLegal(b: Block)
    requires Canonical(b)
    ensures LegalBlock(Plainly(b))
  {
    hide ItemText, LegalTop, PlainTop, IsSpace, Trimmed, OpensBlock, LegalRow, PlainRow, CanonicalCells;
    FirstSpace();
    match b
    case List(ordered, items) =>
      var tops := Plainly(b).items;
      forall t | t in tops ensures LegalTop(t) {
        var i :| 0 <= i < |items| && tops[i] == t;
        assert items[i] in items;
        PlainTopIsLegal(ordered, items[i]);
      }
      FirstGap(ordered, items[0]);
    case Table(header, rows) =>
      PlainTable(header, rows);
    case _ =>
  }

  lemma FirstGap(ordered: bool, item: Item)
    ensures PlainTop(ordered, item).entry.gap.None?
  {}

  lemma PlainTable(header: seq<string>, rows: seq<seq<string>>)
    requires Canonical(Table(header, rows))
    ensures LegalBlock(Plainly(Table(header, rows)))
  {
    hide CanonicalCells, LegalRow;
    PlainCells(header);
    RuleReads();
    forall r | r in Plainly(Table(header, rows)).rows ensures LegalRow(r) {
      var i :| 0 <= i < |rows| && Plainly(Table(header, rows)).rows[i] == r;
      assert rows[i] in rows;
      PlainCells(rows[i]);
    }
  }

  lemma RuleReads()
    ensures LegalRule("|---|")
  {
    IndentIs("|---|", 0);
  }

  // The lines of a plain document hold no newline ---------------------------------------------------

  lemma EntryOneLine(indent: string, mark: Mark, text: string)
    requires OneLine(indent) && LegalMark(mark) && ItemText(text)
    ensures forall l :: l in EntryLines(PlainEntry(indent, mark, text)) ==> OneLine(l)
  {
    assert EntryLines(PlainEntry(indent, mark, text)) == [ItemLine(indent, mark, " ", text)];
  }

  lemma {:induction false} ChildrenOneLine(children: seq<Item>)
    requires forall c :: c in children ==> ItemText(c.text)
    ensures forall l :: l in ChildLines(PlainTop(false, Item("", children)).children) ==> OneLine(l)
  {
    hide ItemText, EntryLines, PlainEntry;
    var entries := PlainTop(false, Item("", children)).children;
    if children != [] {
      assert children[0] in children && forall c :: c in children[1..] ==> c in children;
      ChildrenOneLine(children[1..]);
      assert entries[1..] == PlainTop(false, Item("", children[1..])).children;
      EntryOneLine("  ", Bulleted('-'), children[0].text);
    }
  }

  lemma {:induction false} ItemsOneLine(ordered: bool, items: seq<Item>)
    requires items == [] || CanonicalItems(items)
    ensures forall l :: l in BlockLines(Plainly(List(ordered, items))) ==> OneLine(l)
  {
    hide ItemText, EntryLines, PlainEntry, ChildLines;
    var tops := Plainly(List(ordered, items)).items;
    if items != [] {
      var item := items[0];
      assert item in items && forall i :: i in items[1..] ==> i in items;
      ItemsOneLine(ordered, items[1..]);
      assert tops[1..] == Plainly(List(ordered, items[1..])).items;
      EntryOneLine("", PlainMark(ordered), item.text);
      ChildrenOneLine(item.children);
      assert tops[0].children == PlainTop(false, Item("", item.children)).children;
    }
  }

  lemma {:induction false} JoinOneLine(cells: seq<string>)
    requires forall c :: c in cells ==> OneLine(c)
    ensures OneLine(Join(cells, "|"))
  {
    if cells != [] {
      assert cells[0] in cells && forall c :: c in cells[1..] ==> c in cells;
      JoinOneLine(cells[1..]);
    }
  }

  lemma RowOneLine(cells: seq<string>)
    requires CanonicalCells(cells)
    ensures OneLine(RowLine(PlainRow(cells)))
  {
    var lines := Lines(PlainRow(cells).cells);
    forall l | l in lines ensures OneLine(l) {
      var i :| 0 <= i < |cells| && lines[i] == l;
      assert cells[i] in cells && l == "" + (cells[i] + "");
    }
    JoinOneLine(lines);
  }

  lemma TableOneLine(header: seq<string>, rows: seq<seq<string>>)
    requires CanonicalCells(header) && forall r :: r in rows ==> CanonicalCells(r)
    ensures forall l :: l in BlockLines(Plainly(Table(header, rows))) ==> OneLine(l)
  {
    hide CanonicalCells, RowLine, PlainRow, OneLine;
    var lines := BlockLines(Plainly(Table(header, rows)));
    RowOneLine(header);
    assert OneLine("|---|") by { RuleOneLine(); }
    forall l | l in lines ensures OneLine(l) {
      var i :| 0 <= i < |lines| && lines[i] == l;
      if i >= 2 {
        assert rows[i - 2] in rows;
        RowOneLine(rows[i - 2]);
      }
    }
  }

  lemma RuleOneLine()
    ensures OneLine("|---|")
  {}

  lemma QuoteOneLine(lines: seq<string>)
    requires forall l :: l in lines ==> OneLine(l)
    ensures forall l :: l in BlockLines(Plainly(Quote(lines))) ==> OneLine(l)
  {
    var written := BlockLines(Plainly(Quote(lines)));
    forall l | l in written ensures OneLine(l) {
      var i :| 0 <= i < |lines| && written[i] == l;
      assert lines[i] in lines && l == "" + (">" + (" " + lines[i]));
    }
  }

  lemma SimpleOneLine(b: Block)
    requires Canonical(b) && (b.Heading? || b.Paragraph? || b.Code?)
    ensures forall l :: l in BlockLines(Plainly(b)) ==> OneLine(l)
  {
    hide OpensBlock, Trimmed, StartsWith, IsSpace;
  }

  lemma BlockOneLine(b: Block)
    requires Canonical(b)
    ensures forall l :: l in BlockLines(Plainly(b)) ==> OneLine(l)
  {
    hide OneLine, CanonicalCells, CanonicalItems, BlockLines, Plainly;
    match b
    case List(ordered, items) => ItemsOneLine(ordered, items);
    case Table(header, rows) => TableOneLine(header, rows);
    case Quote(lines) => QuoteOneLine(lines);
    case _ => SimpleOneLine(b);
  }

  lemma {:induction false} PlainDocIsLegal(doc: seq<Block>)
    requires forall b :: b in doc ==> Canonical(b)
    ensures LegalDoc(PlainDoc(doc)) && forall l :: l in DocLines(PlainDoc(doc)) ==> OneLine(l)
  {
    hide Canonical, LegalBlock, BlockLines, Plainly;
    if doc != [] {
      assert doc[0] in doc && forall b :: b in doc[1..] ==> b in doc;
      PlainDocIsLegal(doc[1..]);
      assert PlainDoc(doc)[1..] == PlainDoc(doc[1..]);
      PlainIsLegal(doc[0]);
      BlockOneLine(doc[0]);
      assert Plainly(doc[0]).CodeLines? ==> Plainly(doc[0]).closing.Some? by { PlainCode(doc[0]); }
    }
  }

  lemma PlainCode(b: Block)
    ensures Plainly(b).CodeLines? ==> Plainly(b).closing.Some?
    ensures Plainly(b).ListEntries? <==> b.List?
  {}

  /** Every canonical document, lists side by side included, has a text that parses to exactly that document. */
  lemma EveryDocumentCanBeWritten(doc: seq<Block>)
    requires forall b :: b in doc ==> Canonical(b)
    ensures Legal([], PlainDoc(doc)) && Parse(Write([], PlainDoc(doc))) == doc
  {
    hide Parse, Write, Canonical, Plainly, BlockOf, LegalDoc, DocLines;
    var placed := PlainDoc(doc);
    PlainDocIsLegal(doc);
    assert [] + DocLines(placed) == DocLines(placed);
    forall i | 0 <= i < |doc| ensures BlockOf(placed[i].block) == doc[i] {
      assert doc[i] in doc;
      PlainMeans(doc[i]);
    }
    assert BlocksIn(placed) == doc;
    forall i | 0 <= i < |doc| && placed[i].block.ListEntries? ensures |placed[i].blanks| != 1 {
      PlainCode(doc[i]);
    }
    RoundTrip([], placed);
  }
}
