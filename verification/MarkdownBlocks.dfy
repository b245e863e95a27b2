/** The block parser of apps/web/components/help/markdown.tsx. */
module MarkdownBlocks {
  import opened Text

  datatype Item = Item(text: string, children: seq<Item>)

  datatype Block =
    | Heading(level: nat, text: string)
    | Paragraph(text: string)
    | List(ordered: bool, items: seq<Item>)
    | Quote(lines: seq<string>)
    | Code(lines: seq<string>)
    | Table(header: seq<string>, rows: seq<seq<string>>)

  // ---------------------------------------------------------------------------------------------
  // What one line looks like
  // ---------------------------------------------------------------------------------------------

  const FENCE: string := "```"

  predicate IsFence(line: string) { StartsWith(line, FENCE) }

  predicate IsHeading(line: string) { StartsWith(line, "#### ") || StartsWith(line, "### ") }

  function Hashes(s: string): (n: nat)
    ensures n <= |s|
  {
    if s != "" && s[0] == '#' then 1 + Hashes(s[1..]) else 0
  }

  lemma {:induction false} HashesAre(line: string, n: nat)
    requires n < |line| && line[n] != '#' && forall i :: 0 <= i < n ==> line[..n][i] == '#'
    ensures Hashes(line) == n
  {
    if n > 0 {
      assert line[..n][0] == line[0];
      assert line[1..][..n - 1] == line[..n][1..];
      HashesAre(line[1..], n - 1);
    }
  }

  /** line.replace(/^#+\s+/, ""). */
  function HeadingText(line: string): string {
    var rest := line[Hashes(line)..];
    if Hashes(line) > 0 && rest != "" && IsSpace(rest[0]) then TrimStart(rest) else line
  }

  predicate IsQuoteLine(line: string) { StartsWith(TrimStart(line), ">") }

  predicate StartsQuote(line: string) { StartsWith(TrimStart(line), "> ") || Trim(line) == ">" }

  /** The text after the mark and at most one white-space character. */
  function QuoteText(line: string): string
    requires IsQuoteLine(line)
  {
    var rest := TrimStart(line)[1..];
    if rest != "" && IsSpace(rest[0]) then rest[1..] else rest
  }

  predicate IsTableRow(line: string) { StartsWith(Trim(line), "|") }

  predicate IsSeparator(line: string) {
    line != "" && forall i :: 0 <= i < |line| ==> IsSpace(line[i]) || line[i] in "|:-"
  }

  function StripBars(s: string): string {
    var t := if s != "" && s[0] == '|' then s[1..] else s;
    if t != "" && t[|t| - 1] == '|' then t[..|t| - 1] else t
  }

  function TrimAll(parts: seq<string>): (r: seq<string>)
    ensures |r| == |parts|
  {
    seq(|parts|, i requires 0 <= i < |parts| => Trim(parts[i]))
  }

  function SplitRow(line: string): seq<string> { TrimAll(Split(StripBars(Trim(line)), '|')) }

  predicate EndsLine(c: char) { c == '\n' || c == '\r' || c == '\U{2028}' || c == '\U{2029}' }

  /** How far an item's text is indented, and the text; the mark ends at `mark`. */
  function MarkedAt(line: string, mark: nat): Option<(nat, string)>
    requires mark <= |line|
  {
    var rest := line[mark..];
    if rest == "" || !IsSpace(rest[0]) then None
    else
      var text := TrimStart(rest);
      if exists i :: 0 <= i < |text| && EndsLine(text[i]) then None else Some((Indent(line), text))
  }

  function Bullet(line: string): Option<(nat, string)> {
    var n := Indent(line);
    if n < |line| && (line[n] == '-' || line[n] == '*') then MarkedAt(line, n + 1) else None
  }

  function DigitsFrom(line: string, n: nat): (m: nat)
    requires n <= |line|
    ensures n <= m <= |line|
    decreases |line| - n
  {
    if n < |line| && '0' <= line[n] <= '9' then DigitsFrom(line, n + 1) else n
  }

  function Ordered(line: string): Option<(nat, string)> {
    var n := Indent(line);
    var m := DigitsFrom(line, n);
    if n < m < |line| && (line[m] == '.' || line[m] == ')') then MarkedAt(line, m + 1) else None
  }

  function ItemOf(line: string): Option<(nat, string)> {
    if Bullet(line).Some? then Bullet(line) else Ordered(line)
  }

  predicate IsWrap(line: string) { 2 <= Indent(line) < |line| }

  // ---------------------------------------------------------------------------------------------
  // Blocks of several lines
  // ---------------------------------------------------------------------------------------------

  /** The number of lines before the first fence. */
  function CodeRun(lines: seq<string>): (n: nat)
    ensures n <= |lines|
  {
    if lines == [] || IsFence(lines[0]) then 0 else 1 + CodeRun(lines[1..])
  }

  function QuoteRun(lines: seq<string>): (n: nat)
    ensures n <= |lines|
    ensures forall i :: 0 <= i < n ==> IsQuoteLine(lines[i])
  {
    if lines == [] || !IsQuoteLine(lines[0]) then 0 else 1 + QuoteRun(lines[1..])
  }

  function RowRun(lines: seq<string>): (n: nat)
    ensures n <= |lines|
  {
    if lines == [] || !IsTableRow(lines[0]) then 0 else 1 + RowRun(lines[1..])
  }

  function QuoteTexts(lines: seq<string>): (texts: seq<string>)
    requires forall l :: l in lines ==> IsQuoteLine(l)
    ensures |texts| == |lines|
  {
    seq(|lines|, i requires 0 <= i < |lines| => QuoteText(lines[i]))
  }

  function SplitRows(lines: seq<string>): (rows: seq<seq<string>>)
    ensures |rows| == |lines|
  {
    seq(|lines|, i requires 0 <= i < |lines| => SplitRow(lines[i]))
  }

  function AddItem(items: seq<Item>, indent: nat, text: string): (r: seq<Item>)
    ensures r != []
  {
    if indent >= 2 && items != [] then
      var last := items[|items| - 1];
      items[|items| - 1 := last.(children := last.children + [Item(text, [])])]
    else items + [Item(text, [])]
  }

  /** A wrapped line continues the last item, or that item's last child. */
  function AddText(items: seq<Item>, text: string): (r: seq<Item>)
    requires items != []
    ensures r != []
  {
    var last := items[|items| - 1];
    items[|items| - 1 :=
      if last.children == [] then last.(text := last.text + " " + text)
      else
        var child := last.children[|last.children| - 1];
        last.(children := last.children[|last.children| - 1 := child.(text := child.text + " " + text)])]
  }

  /** A blank line stays inside a list when the next line is an item or a wrapped line. */
  predicate Continues(lines: seq<string>) {
    |lines| > 1 && (ItemOf(lines[1]).Some? || IsWrap(lines[1]))
  }

  /** The items a list holds after reading on, and how many lines that takes. */
  function ListRun(lines: seq<string>, items: seq<Item>): (r: (seq<Item>, nat))
    ensures r.1 <= |lines|
    decreases |lines|
  {
    if lines == [] then (items, 0)
    else if Blank(lines[0]) then
      if Continues(lines) then var r := ListRun(lines[1..], items); (r.0, r.1 + 1) else (items, 0)
    else
      match ItemOf(lines[0])
      case Some((indent, text)) =>
        var r := ListRun(lines[1..], AddItem(items, indent, text)); (r.0, r.1 + 1)
      case None =>
        if IsWrap(lines[0]) && items != [] then
          var r := ListRun(lines[1..], AddText(items, Trim(lines[0]))); (r.0, r.1 + 1)
        else (items, 0)
  }

  predicate StartsTable(lines: seq<string>) {
    |lines| > 1 && IsTableRow(lines[0]) && IsTableRow(lines[1]) && IsSeparator(lines[1])
  }

  /** A fenced block: the lines up to the closing fence, which is taken too when there is one. */
  function CodeAt(lines: seq<string>): (r: (Block, nat))
    requires lines != []
    ensures 0 < r.1 <= |lines|
  {
    var n := CodeRun(lines[1..]);
    (Code(lines[1..n + 1]), if n + 2 <= |lines| then n + 2 else |lines|)
  }

  function HeadingAt(line: string): Block {
    Heading(if StartsWith(line, "#### ") then 4 else 3, HeadingText(line))
  }

  function QuoteAt(lines: seq<string>): (r: (Block, nat))
    requires lines != [] && StartsQuote(lines[0])
    ensures 0 < r.1 <= |lines|
  {
    StartsQuoteIsLine(lines[0]);
    var n := QuoteRun(lines);
    (Quote(QuoteTexts(lines[..n])), n)
  }

  function TableAt(lines: seq<string>): (r: (Block, nat))
    requires StartsTable(lines)
    ensures 0 < r.1 <= |lines|
  {
    var n := RowRun(lines[2..]);
    (Table(SplitRow(lines[0]), SplitRows(lines[2..n + 2])), n + 2)
  }

  function ListAt(lines: seq<string>): (r: (Block, nat))
    requires lines != [] && !Blank(lines[0]) && ItemOf(lines[0]).Some?
    ensures 0 < r.1 <= |lines|
  {
    var r := ListRun(lines, []);
    (List(Bullet(lines[0]).None?, r.0), r.1)
  }

  /** The block that opens at the first line, if that line opens one, and the lines it takes. */
  function Opened(lines: seq<string>): (r: Option<(Block, nat)>)
    requires lines != [] && !Blank(lines[0])
    ensures r.Some? ==> 0 < r.value.1 <= |lines|
  {
    if IsFence(lines[0]) then Some(CodeAt(lines))
    else if IsHeading(lines[0]) then Some((HeadingAt(lines[0]), 1))
    else if StartsQuote(lines[0]) then Some(QuoteAt(lines))
    else if StartsTable(lines) then Some(TableAt(lines))
    else if ItemOf(lines[0]).Some? then Some(ListAt(lines))
    else None
  }

  lemma StartsQuoteIsLine(line: string)
    requires StartsQuote(line)
    ensures IsQuoteLine(line)
  {
    if Trim(line) == ">" {
      assert TrimStart(line)[0] == Trim(line)[0];
    }
  }

  // ---------------------------------------------------------------------------------------------
  // The whole parser: every line goes into exactly one piece
  // ---------------------------------------------------------------------------------------------

  /** A blank line between blocks, or a block with the lines it was read from. */
  datatype Piece = Gap(line: string) | Used(block: Block, source: seq<string>)

  function Flush(para: seq<string>): seq<Piece> {
    if para == [] then [] else [Used(Paragraph(Trim(Join(TrimAll(para), " "))), para)]
  }

  function Pieces(lines: seq<string>, para: seq<string>): seq<Piece>
    decreases |lines|
  {
    if lines == [] then Flush(para)
    else if Blank(lines[0]) then Flush(para) + ([Gap(lines[0])] + Pieces(lines[1..], []))
    else
      match Opened(lines)
      case Some((block, n)) => Flush(para) + ([Used(block, lines[..n])] + Pieces(lines[n..], []))
      case None => Pieces(lines[1..], para + [lines[0]])
  }

  function BlockIn(piece: Piece): seq<Block> {
    if piece.Used? then [piece.block] else []
  }

  function BlocksOf(pieces: seq<Piece>): seq<Block> {
    if pieces == [] then [] else BlockIn(pieces[0]) + BlocksOf(pieces[1..])
  }

  lemma {:induction false} BlocksOfAppend(a: seq<Piece>, b: seq<Piece>)
    ensures BlocksOf(a + b) == BlocksOf(a) + BlocksOf(b)
  {
    if a == [] {
      assert a + b == b;
    } else {
      assert (a + b)[1..] == a[1..] + b;
      BlocksOfAppend(a[1..], b);
      Assoc(BlockIn(a[0]), BlocksOf(a[1..]), BlocksOf(b));
    }
  }

  function ParseLines(lines: seq<string>): seq<Block> { BlocksOf(Pieces(lines, [])) }

  function Parse(markdown: string): seq<Block> { ParseLines(Split(markdown, '\n')) }
}
