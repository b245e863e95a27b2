/** parseBlocks as the source runs it: an index over the lines, a paragraph buffer, and lists of blocks and
    items that grow as lines are read. */
module MarkdownReader {
  import opened Text
  import opened MarkdownBlocks

  /** A fenced block from line i on; the index may pass the end when the fence is never closed. */
  method ReadCode(lines: seq<string>, start: nat) returns (block: Block, i: nat)
    requires start < |lines|
    ensures start < i <= |lines| + 1
    ensures (block, (if i <= |lines| then i else |lines|) - start) == CodeAt(lines[start..])
  {
    var code: seq<string> := [];
    ghost var rest := lines[start + 1..];
    i := start + 1;
    while i < |lines| && !IsFence(lines[i])
      invariant start < i <= |lines|
      invariant code == lines[start + 1..i]
      invariant CodeRun(rest) == i - start - 1 + CodeRun(lines[i..])
    {
      code := code + [lines[i]];
      i := i + 1;
    }
    assert lines[start..][1..] == rest;
    assert code == lines[start..][1..i - start];
    block := Code(code);
    i := i + 1;
  }

  method ReadQuote(lines: seq<string>, start: nat) returns (block: Block, i: nat)
    requires start < |lines| && StartsQuote(lines[start])
    ensures start < i <= |lines|
    ensures (block, i - start) == QuoteAt(lines[start..])
  {
    hide IsQuoteLine, QuoteText, StartsQuote, Trim, Blank;
    var quote: seq<string> := [];
    i := start;
    while i < |lines| && (IsQuoteLine(lines[i]) || Trim(lines[i]) == "")
      invariant start <= i <= |lines| && |quote| == i - start
      invariant forall k :: start <= k < i ==> IsQuoteLine(lines[k]) && quote[k - start] == QuoteText(lines[k])
      invariant QuoteRun(lines[start..]) == i - start + QuoteRun(lines[i..])
    {
      if Trim(lines[i]) == "" {
        TrimEmptyIffBlank(lines[i]);
        BlankIsNotQuote(lines[i]);
        break;
      }
      quote := quote + [QuoteText(lines[i])];
      i := i + 1;
    }
    StartsQuoteIsLine(lines[start]);
    assert i > start by { assert QuoteRun(lines[start..]) > 0; }
    assert quote == QuoteTexts(lines[start..][..i - start]);
    block := Quote(quote);
  }

  lemma BlankIsNotQuote(line: string)
    requires Blank(line)
    ensures !IsQuoteLine(line)
  {
    assert line[..|line|] == line;
    IndentIs(line, |line|);
  }

  method ReadTable(lines: seq<string>, start: nat) returns (block: Block, i: nat)
    requires start < |lines| && StartsTable(lines[start..])
    ensures start < i <= |lines|
    ensures (block, i - start) == TableAt(lines[start..])
  {
    hide SplitRow, IsTableRow, IsSeparator;
    var header := SplitRow(lines[start]);
    var rows: seq<seq<string>> := [];
    i := start + 2;
    ghost var rest := lines[start..];
    assert rest[2..] == lines[i..];
    while i < |lines| && IsTableRow(lines[i])
      invariant start + 2 <= i <= |lines|
      invariant rows == SplitRows(rest[2..i - start])
      invariant RowRun(rest[2..]) == i - start - 2 + RowRun(lines[i..])
    {
      RowRunStep(lines, i);
      SplitRowsStep(rest, i - start);
      rows := rows + [SplitRow(lines[i])];
      i := i + 1;
    }
    RowRunStep(lines, i);
    block := Table(header, rows);
  }

  lemma RowRunStep(lines: seq<string>, i: nat)
    requires i <= |lines|
    ensures RowRun(lines[i..]) == if i < |lines| && IsTableRow(lines[i]) then 1 + RowRun(lines[i + 1..]) else 0
  {
    if i < |lines| { assert lines[i..][1..] == lines[i + 1..]; }
  }

  lemma SplitRowsStep(lines: seq<string>, n: nat)
    requires 2 <= n < |lines|
    ensures SplitRows(lines[2..n + 1]) == SplitRows(lines[2..n]) + [SplitRow(lines[n])]
  {}

  method ReadList(lines: seq<string>, start: nat) returns (items: seq<Item>, i: nat)
    requires start <= |lines|
    ensures start <= i <= |lines|
    ensures (items, i - start) == ListRun(lines[start..], [])
  {
    hide ItemOf, IsWrap, AddText, AddItem, Trim, Blank, ListRun;
    items := [];
    i := start;
    while i < |lines|
      invariant start <= i <= |lines|
      invariant ListRun(lines[start..], []) == Later(ListRun(lines[i..], items), i - start)
    {
      var current := lines[i];
      TrimEmptyIffBlank(current);
      ListStep(lines, i, items);
      if Trim(current) == "" {
        if i + 1 < |lines| && (ItemOf(lines[i + 1]).Some? || IsWrap(lines[i + 1])) {
          i := i + 1;
          continue;
        }
        break;
      }
      var item := ItemOf(current);
      if item.Some? {
        items := AddItem(items, item.value.0, item.value.1);
        i := i + 1;
        continue;
      }
      if IsWrap(current) && |items| > 0 {
        items := AddText(items, Trim(current));
        i := i + 1;
        continue;
      }
      break;
    }
    if i == |lines| { assert lines[i..] == []; }
    ListEnd(items);
  }

  lemma ListEnd(items: seq<Item>)
    ensures ListRun([], items) == (items, 0)
  {}

  function Later(r: (seq<Item>, nat), n: nat): (seq<Item>, nat) { (r.0, r.1 + n) }

  /** One line of a list. */
  lemma ListStep(lines: seq<string>, i: nat, items: seq<Item>)
    requires i < |lines|
    ensures ListRun(lines[i..], items)
         == if Blank(lines[i]) then
              if i + 1 < |lines| && (ItemOf(lines[i + 1]).Some? || IsWrap(lines[i + 1]))
              then Later(ListRun(lines[i + 1..], items), 1) else (items, 0)
            else if ItemOf(lines[i]).Some? then
              Later(ListRun(lines[i + 1..], AddItem(items, ItemOf(lines[i]).value.0, ItemOf(lines[i]).value.1)), 1)
            else if IsWrap(lines[i]) && items != [] then
              Later(ListRun(lines[i + 1..], AddText(items, Trim(lines[i]))), 1)
            else (items, 0)
  {
    assert lines[i..][1..] == lines[i + 1..];
  }

  function FlushParagraph(blocks: seq<Block>, buffer: seq<string>): seq<Block> {
    if |buffer| > 0 then blocks + [Paragraph(Trim(Join(buffer, " ")))] else blocks
  }

  /** Reading on from a line that opens a block: the buffered paragraph, that block, then the rest. */
  lemma AfterBlock(lines: seq<string>, i: nat, para: seq<string>, block: Block, n: nat, blocks: seq<Block>)
    requires i < |lines| && !Blank(lines[i])
    requires Opened(lines[i..]) == Some((block, n))
    ensures i + n <= |lines|
    ensures blocks + BlocksOf(Pieces(lines[i..], para))
         == FlushParagraph(blocks, TrimAll(para)) + [block] + ParseLines(lines[i + n..])
  {
    var rest := lines[i..];
    assert rest[n..] == lines[i + n..];
    var tail := [Used(block, rest[..n])] + Pieces(lines[i + n..], []);
    BlocksOfAppend(Flush(para), tail);
    AfterFlush(blocks, para, BlocksOf(tail));
    Assoc(FlushParagraph(blocks, TrimAll(para)), [block], ParseLines(lines[i + n..]));
  }

  lemma AfterFlush(blocks: seq<Block>, para: seq<string>, tail: seq<Block>)
    ensures blocks + (BlocksOf(Flush(para)) + tail) == FlushParagraph(blocks, TrimAll(para)) + tail
  {
    if para == [] {
      assert BlocksOf(Flush(para)) + tail == tail;
    } else {
      assert Flush(para)[1..] == [];
      Assoc(blocks, BlocksOf(Flush(para)), tail);
    }
  }

  lemma AfterGap(lines: seq<string>, i: nat, para: seq<string>, blocks: seq<Block>)
    requires i < |lines| && Blank(lines[i])
    ensures blocks + BlocksOf(Pieces(lines[i..], para))
         == FlushParagraph(blocks, TrimAll(para)) + ParseLines(lines[i + 1..])
  {
    var rest := lines[i..];
    assert rest[1..] == lines[i + 1..];
    var tail := [Gap(lines[i])] + Pieces(lines[i + 1..], []);
    BlocksOfAppend(Flush(para), tail);
    AfterFlush(blocks, para, BlocksOf(tail));
    assert BlocksOf(tail) == [] + ParseLines(lines[i + 1..]) == ParseLines(lines[i + 1..]);
  }

  lemma AfterLine(lines: seq<string>, i: nat, para: seq<string>)
    requires i < |lines| && !Blank(lines[i]) && Opened(lines[i..]).None?
    ensures Pieces(lines[i..], para) == Pieces(lines[i + 1..], para + [lines[i]])
    ensures TrimAll(para + [lines[i]]) == TrimAll(para) + [Trim(lines[i])]
  {
    assert lines[i..][1..] == lines[i + 1..];
  }

  lemma AfterEnd(blocks: seq<Block>, para: seq<string>)
    ensures blocks + BlocksOf(Pieces([], para)) == FlushParagraph(blocks, TrimAll(para))
  {
    AfterFlush(blocks, para, []);
    assert BlocksOf(Flush(para)) + [] == BlocksOf(Flush(para));
    assert FlushParagraph(blocks, TrimAll(para)) + [] == FlushParagraph(blocks, TrimAll(para));
  }

  /** Rest of the lines from an index that the closing-fence step may have moved one past the end. */
  function From(lines: seq<string>, i: nat): seq<string>
    requires i <= |lines| + 1
  {
    if i <= |lines| then lines[i..] else []
  }

  method ParseBlocks(markdown: string) returns (blocks: seq<Block>)
    ensures blocks == Parse(markdown)
  {
    hide Split, Blank, Trim, Opened, FlushParagraph, Pieces;
    var lines := Split(markdown, '\n');
    blocks := [];
    var paragraph: seq<string> := [];
    ghost var para: seq<string> := [];
    ghost var whole := ParseLines(lines);
    var i := 0;
    assert lines[0..] == lines && [] + whole == whole;
    while i < |lines|
      invariant i <= |lines| + 1
      invariant paragraph == TrimAll(para)
      invariant blocks + BlocksOf(Pieces(From(lines, i), para)) == whole
    {
      var line := lines[i];
      TrimEmptyIffBlank(line);
      if Trim(line) == "" {
        AfterGap(lines, i, para, blocks);
        blocks := FlushParagraph(blocks, paragraph);
        paragraph, para := [], [];
        i := i + 1;
        continue;
      }
      var block, next := ReadBlock(lines, i);
      if block.Some? {
        AfterBlock(lines, i, para, block.value, (if next <= |lines| then next else |lines|) - i, blocks);
        blocks := FlushParagraph(blocks, paragraph) + [block.value];
        paragraph, para := [], [];
        assert next > |lines| ==> lines[|lines|..] == [];
        i := next;
        continue;
      }
      AfterLine(lines, i, para);
      paragraph := paragraph + [Trim(line)];
      para := para + [line];
      i := i + 1;
    }
    assert From(lines, i) == [];
    AfterEnd(blocks, para);
    blocks := FlushParagraph(blocks, paragraph);
  }

  /** The openers, tried in order at line i, and the index after the block. */
  method ReadBlock(lines: seq<string>, i: nat) returns (block: Option<Block>, next: nat)
    requires i < |lines| && !Blank(lines[i])
    ensures block.None? ==> Opened(lines[i..]).None?
    ensures block.Some? ==> i < next <= |lines| + 1
    ensures block.Some? ==>
      Opened(lines[i..]) == Some((block.value, (if next <= |lines| then next else |lines|) - i))
  {
    hide IsFence, IsHeading, StartsQuote, IsTableRow, IsSeparator, Blank, Bullet, Ordered, HeadingAt, CodeAt, QuoteAt,
      TableAt;
    var line := lines[i];
    var b;
    if IsFence(line) {
      b, next := ReadCode(lines, i);
      return Some(b), next;
    }
    if IsHeading(line) {
      return Some(HeadingAt(line)), i + 1;
    }
    if StartsQuote(line) {
      b, next := ReadQuote(lines, i);
      return Some(b), next;
    }
    if IsTableRow(line) && i + 1 < |lines| && IsTableRow(lines[i + 1]) && IsSeparator(lines[i + 1]) {
      b, next := ReadTable(lines, i);
      return Some(b), next;
    }
    var bullet, ordered := Bullet(line), Ordered(line);
    if bullet.Some? || ordered.Some? {
      var items;
      items, next := ReadList(lines, i);
      assert ListAt(lines[i..]).1 > 0;
      return Some(List(ordered.Some? && bullet.None?, items)), next;
    }
    return None, i;
  }
}
