/** Nothing is lost: every line of a document goes into exactly one place, in order, and each block shows what
    its own lines say. */
module MarkdownConservation {
  import opened Text
  import opened MarkdownBlocks

  // ---------------------------------------------------------------------------------------------
  // What a block must show of its lines
  // ---------------------------------------------------------------------------------------------

  /** Item texts in reading order: each item, then its children. */
  function Texts(items: seq<Item>): seq<string>
    decreases items
  {
    if items == [] then [] else TextsOf(items[0]) + Texts(items[1..])
  }

  function TextsOf(item: Item): seq<string>
    decreases item
  {
    match item case Item(text, children) => [text] + Texts(children)
  }

  /** Items, and children that have no children. */
  predicate TwoLevels(items: seq<Item>) {
    forall item :: item in items ==> forall child :: child in item.children ==> child.children == []
  }

  /** What a list line says: an item's text, or a wrapped line without its white space. */
  function Said(line: string): string {
    match ItemOf(line) case Some((_, text)) => text case None => Trim(line)
  }

  function SaidBy(lines: seq<string>): seq<string> {
    if lines == [] then []
    else (if Blank(lines[0]) then [] else [Said(lines[0])]) + SaidBy(lines[1..])
  }

  ghost predicate QuotesLine(line: string, text: string) {
    exists indent: string, gap: string ::
      Blank(indent) && Blank(gap) && |gap| <= 1 && line == indent + (">" + (gap + text))
  }

  ghost predicate HeadsLine(line: string, level: nat, text: string) {
    exists gap: string :: gap != "" && Blank(gap) && TrimStart(text) == text
      && line == (if level == 4 then "####" else "###") + gap + text
  }

  ghost predicate Shows(source: seq<string>, block: Block) {
    match block
    case Paragraph(text) =>
      && source != [] && (forall l :: l in source ==> !Blank(l))
      && text == Trim(Join(TrimAll(source), " "))
    case Heading(level, text) =>
      && |source| == 1 && (level == 3 || level == 4) && HeadsLine(source[0], level, text)
    case Quote(lines) =>
      && source != [] && |lines| == |source|
      && forall i :: 0 <= i < |lines| ==> QuotesLine(source[i], lines[i])
    case Code(lines) =>
      && source != [] && IsFence(source[0])
      && (forall l :: l in lines ==> !IsFence(l))
      && (source == [source[0]] + lines
          || (|source| > 1 && source == [source[0]] + lines + [source[|source| - 1]]
              && IsFence(source[|source| - 1])))
    case Table(header, rows) =>
      && |source| == |rows| + 2 && IsSeparator(source[1])
      && (forall l :: l in source ==> IsTableRow(l))
      && header == SplitRow(source[0])
      && forall i :: 0 <= i < |rows| ==> rows[i] == SplitRow(source[i + 2])
    case List(ordered, items) =>
      && source != [] && ItemOf(source[0]).Some? && ordered == Bullet(source[0]).None?
      && TwoLevels(items)
      && Join(Texts(items), " ") == Join(SaidBy(source), " ")
  }

  // ---------------------------------------------------------------------------------------------
  // Each kind of block shows its lines
  // ---------------------------------------------------------------------------------------------

  lemma HeadingShows(line: string)
    requires IsHeading(line)
    ensures Shows([line], HeadingAt(line))
  {
    var level := if StartsWith(line, "#### ") then 4 else 3;
    var marks := if level == 4 then "####" else "###";
    assert line[..level] == marks && line[level] == ' ' by {
      var opener := marks + " ";
      assert line[..level + 1] == opener;
      assert line[..level] == line[..level + 1][..level] && line[level] == line[..level + 1][level];
      assert opener[..level] == marks;
    }
    HashesAre(line, level);
    var rest := line[level..];
    var gap, text := rest[..Indent(rest)], TrimStart(rest);
    assert rest == gap + text;
    IndentIs(text, 0);
    assert line == marks + rest;
    assert marks + (gap + text) == marks + gap + text;
    assert HeadsLine(line, level, text);
  }

  lemma QuoteShows(line: string)
    requires IsQuoteLine(line)
    ensures QuotesLine(line, QuoteText(line))
  {
    hide Indent, IsSpace;
    var n := Indent(line);
    var t := TrimStart(line);
    assert t[..1] == ">" && line[n] == '>';
    var rest := t[1..];
    var gap := if rest != "" && IsSpace(rest[0]) then rest[..1] else "";
    assert rest == gap + QuoteText(line);
    assert t == ">" + rest;
    assert line == line[..n] + t;
  }

  lemma {:induction false} CodeRunHasNoFence(lines: seq<string>)
    ensures var n := CodeRun(lines);
      && (forall i :: 0 <= i < n ==> !IsFence(lines[i]))
      && (n < |lines| ==> IsFence(lines[n]))
  {
    hide IsFence;
    if lines != [] && !IsFence(lines[0]) {
      CodeRunHasNoFence(lines[1..]);
    }
  }

  lemma CodeShows(lines: seq<string>)
    requires lines != [] && IsFence(lines[0])
    ensures var (block, n) := CodeAt(lines); Shows(lines[..n], block)
  {
    hide IsFence;
    var rest := lines[1..];
    CodeRunHasNoFence(rest);
    var k := CodeRun(rest);
    var (block, n) := CodeAt(lines);
    var source := lines[..n];
    assert block.lines == rest[..k];
    if n == k + 2 {
      assert source == [source[0]] + block.lines + [source[n - 1]];
      assert source[n - 1] == rest[k];
    } else {
      assert source == [source[0]] + block.lines;
    }
  }

  lemma {:induction false} RowRunAllRows(lines: seq<string>)
    ensures forall i :: 0 <= i < RowRun(lines) ==> IsTableRow(lines[i])
  {
    hide IsTableRow;
    if lines != [] && IsTableRow(lines[0]) {
      RowRunAllRows(lines[1..]);
    }
  }

  lemma TableShows(lines: seq<string>)
    requires StartsTable(lines)
    ensures var (block, n) := TableAt(lines); Shows(lines[..n], block)
  {
    hide IsTableRow, IsSeparator, SplitRow;
    RowRunAllRows(lines[2..]);
    var (block, n) := TableAt(lines);
    var source := lines[..n];
    forall l | l in source ensures IsTableRow(l) {
      var i :| 0 <= i < n && source[i] == l;
      if i >= 2 { assert lines[2..][i - 2] == l; }
    }
    forall i | 0 <= i < |block.rows| ensures block.rows[i] == SplitRow(source[i + 2]) {
      assert lines[2..n][i] == source[i + 2];
    }
  }

  // Lists -----------------------------------------------------------------------------------------

  lemma {:induction false} TextsAppend(a: seq<Item>, b: seq<Item>)
    ensures Texts(a + b) == Texts(a) + Texts(b)
  {
    if a == [] {
      assert a + b == b;
    } else {
      assert (a + b)[1..] == a[1..] + b;
      TextsAppend(a[1..], b);
      Assoc(TextsOf(a[0]), Texts(a[1..]), Texts(b));
    }
  }

  lemma TextsSingle(item: Item)
    ensures Texts([item]) == [item.text] + Texts(item.children)
  {
    assert [item][1..] == [] && TextsOf(item) + [] == TextsOf(item);
  }

  /** Everything but the last item, then that item and its children. */
  lemma TextsLast(items: seq<Item>)
    requires items != []
    ensures var last := items[|items| - 1];
      Texts(items) == Texts(items[..|items| - 1]) + ([last.text] + Texts(last.children))
  {
    hide Texts, TextsOf;
    var last := items[|items| - 1];
    assert items == items[..|items| - 1] + [last];
    TextsAppend(items[..|items| - 1], [last]);
    TextsSingle(last);
  }

  lemma TextsNonEmpty(items: seq<Item>)
    requires items != []
    ensures Texts(items) != []
  {
    TextsLast(items);
  }

  lemma ReplaceLast(items: seq<Item>, item: Item)
    requires items != []
    ensures Texts(items[|items| - 1 := item])
         == Texts(items[..|items| - 1]) + ([item.text] + Texts(item.children))
  {
    hide Texts, TextsOf;
    var items' := items[|items| - 1 := item];
    TextsLast(items');
    assert items'[..|items| - 1] == items[..|items| - 1];
  }

  lemma AddItemTexts(items: seq<Item>, indent: nat, text: string)
    ensures Texts(AddItem(items, indent, text)) == Texts(items) + [text]
  {
    hide Texts, TextsOf;
    var added := Item(text, []);
    TextsSingle(added);
    NoTexts();
    assert [text] + [] == [text];
    if indent >= 2 && items != [] {
      var last := items[|items| - 1];
      var front := Texts(items[..|items| - 1]);
      TextsLast(items);
      ReplaceLast(items, last.(children := last.children + [added]));
      TextsAppend(last.children, [added]);
      Assoc([last.text], Texts(last.children), [text]);
      Assoc(front, [last.text] + Texts(last.children), [text]);
    } else {
      TextsAppend(items, [added]);
    }
  }

  lemma NoTexts()
    ensures Texts([]) == []
  {}

  /** Adding a wrapped line lengthens the last text by a space and that line. */
  lemma AddTextTexts(items: seq<Item>, text: string)
    requires items != [] && TwoLevels(items)
    ensures var t := Texts(items);
      t != [] && Texts(AddText(items, text)) == t[..|t| - 1] + [t[|t| - 1] + " " + text]
  {
    hide Texts, TextsOf;
    var last := items[|items| - 1];
    var front := Texts(items[..|items| - 1]);
    TextsLast(items);
    if last.children == [] {
      AddTextToLeaf(items, text);
    } else {
      assert last in items;
      AddTextToChild(last, text);
      ReplaceLast(items, AddToChild(last, text));
      var cs := last.children;
      var child := cs[|cs| - 1];
      Regroup(front, last.text, Texts(cs[..|cs| - 1]), child.text, child.text + " " + text);
    }
  }

  lemma AddTextToLeaf(items: seq<Item>, text: string)
    requires items != [] && items[|items| - 1].children == []
    ensures var t := Texts(items);
      t != [] && Texts(AddText(items, text)) == t[..|t| - 1] + [t[|t| - 1] + " " + text]
  {
    hide Texts, TextsOf;
    NoTexts();
    var last := items[|items| - 1];
    var front := Texts(items[..|items| - 1]);
    var longer := last.(text := last.text + " " + text);
    TextsLast(items);
    ReplaceLast(items, longer);
    assert [last.text] + [] == [last.text] && [longer.text] + [] == [longer.text];
    assert (front + [last.text])[..|front|] == front;
  }

  function AddToChild(item: Item, text: string): Item
    requires item.children != []
  {
    var cs := item.children;
    var child := cs[|cs| - 1];
    item.(children := cs[|cs| - 1 := child.(text := child.text + " " + text)])
  }

  lemma AddTextToChild(item: Item, text: string)
    requires item.children != [] && forall c :: c in item.children ==> c.children == []
    ensures var cs := item.children;
      var child := cs[|cs| - 1];
      && Texts(cs) == Texts(cs[..|cs| - 1]) + [child.text]
      && Texts(AddToChild(item, text).children) == Texts(cs[..|cs| - 1]) + [child.text + " " + text]
  {
    hide Texts, TextsOf;
    NoTexts();
    var cs := item.children;
    var child := cs[|cs| - 1];
    assert child in cs;
    var longer := child.(text := child.text + " " + text);
    TextsLast(cs);
    ReplaceLast(cs, longer);
    assert [child.text] + [] == [child.text] && [longer.text] + [] == [longer.text];
  }

  lemma Regroup(front: seq<string>, head: string, inner: seq<string>, first: string, renewed: string)
    ensures var t := front + ([head] + (inner + [first]));
      && t != [] && t[|t| - 1] == first
      && front + ([head] + (inner + [renewed])) == t[..|t| - 1] + [renewed]
  {
    var t := front + ([head] + (inner + [first]));
    assert t[..|t| - 1] == front + ([head] + inner);
  }

  lemma {:induction false} JoinLengthened(t: seq<string>, text: string)
    requires t != []
    ensures Join(t[..|t| - 1] + [t[|t| - 1] + " " + text], " ") == Join(t, " ") + " " + text
  {
    if |t| > 1 {
      var t' := t[..|t| - 1] + [t[|t| - 1] + " " + text];
      JoinLengthened(t[1..], text);
      assert t'[1..] == t[1..][..|t| - 2] + [t[1..][|t| - 2] + " " + text];
      assert t[0] + " " + (Join(t[1..], " ") + " " + text) == Join(t, " ") + " " + text;
    }
  }

  /** What a list holds so far, followed by what the lines read on say. */
  lemma {:induction false} ListRunShows(lines: seq<string>, items: seq<Item>, said: seq<string>)
    requires TwoLevels(items)
    requires items == [] <==> said == []
    requires Join(Texts(items), " ") == Join(said, " ")
    ensures var (result, n) := ListRun(lines, items);
      && TwoLevels(result)
      && Join(Texts(result), " ") == Join(said + SaidBy(lines[..n]), " ")
    decreases |lines|
  {
    hide Texts, TextsOf, ItemOf, IsWrap, Blank, AddItem, AddText, Join, Trim;
    var (result, n) := ListRun(lines, items);
    if n == 0 {
      assert lines[..0] == [] && said + SaidBy([]) == said;
    } else {
      var line := lines[0];
      assert lines[..n][0] == line && lines[..n][1..] == lines[1..][..n - 1];
      if Blank(line) {
        ListRunShows(lines[1..], items, said);
        assert SaidBy(lines[..n]) == [] + SaidBy(lines[1..][..n - 1]) == SaidBy(lines[1..][..n - 1]);
      } else {
        var said' := said + [Said(line)];
        var items' := NextItems(line, items);
        NextItemsShow(line, items, said);
        ListRunShows(lines[1..], items', said');
        Assoc(said, [Said(line)], SaidBy(lines[1..][..n - 1]));
      }
    }
  }

  /** The items after one line that belongs to the list. */
  function NextItems(line: string, items: seq<Item>): (r: seq<Item>)
    requires ItemOf(line).Some? || items != []
    ensures r != []
  {
    if ItemOf(line).Some? then AddItem(items, ItemOf(line).value.0, ItemOf(line).value.1)
    else AddText(items, Trim(line))
  }

  lemma NextItemsShow(line: string, items: seq<Item>, said: seq<string>)
    requires TwoLevels(items) && (ItemOf(line).Some? || items != [])
    requires items == [] <==> said == []
    requires Join(Texts(items), " ") == Join(said, " ")
    ensures TwoLevels(NextItems(line, items))
    ensures Join(Texts(NextItems(line, items)), " ") == Join(said + [Said(line)], " ")
  {
    hide Texts, TextsOf, ItemOf, Trim, Join;
    match ItemOf(line)
    case Some((indent, text)) =>
      AddItemTexts(items, indent, text);
      if items == [] {
        NoTexts();
        assert [] + [text] == [text];
        assert said + [Said(line)] == [text];
      } else {
        TextsNonEmpty(items);
        JoinAppend(Texts(items), text, " ");
        JoinAppend(said, text, " ");
      }
    case None =>
      AddTextTexts(items, Trim(line));
      JoinLengthened(Texts(items), Trim(line));
      JoinAppend(said, Trim(line), " ");
  }

  lemma ListShows(lines: seq<string>)
    requires lines != [] && !Blank(lines[0]) && ItemOf(lines[0]).Some?
    ensures var (block, n) := ListAt(lines); Shows(lines[..n], block)
  {
    hide Texts, TextsOf, ItemOf, ListRun, Join;
    NoTexts();
    ListRunShows(lines, [], []);
    var (block, n) := ListAt(lines);
    assert [] + SaidBy(lines[..n]) == SaidBy(lines[..n]);
  }

  lemma OpenedShows(lines: seq<string>)
    requires lines != [] && !Blank(lines[0])
    ensures Opened(lines).Some? ==> var (block, n) := Opened(lines).value; Shows(lines[..n], block)
  {
    hide IsFence, IsHeading, StartsQuote, StartsTable, ItemOf, CodeAt, HeadingAt, TableAt, ListAt, Blank, Shows;
    if IsFence(lines[0]) {
      CodeShows(lines);
    } else if IsHeading(lines[0]) {
      HeadingShows(lines[0]);
      assert lines[..1] == [lines[0]];
    } else if StartsQuote(lines[0]) {
      QuotedShows(lines);
    } else if StartsTable(lines) {
      TableShows(lines);
    } else if ItemOf(lines[0]).Some? {
      ListShows(lines);
    }
  }

  lemma QuotedShows(lines: seq<string>)
    requires lines != [] && StartsQuote(lines[0])
    ensures var (block, n) := QuoteAt(lines); Shows(lines[..n], block)
  {
    hide QuotesLine, QuoteText, StartsQuote, IsQuoteLine;
    var (block, n) := QuoteAt(lines);
    var source := lines[..n];
    forall i | 0 <= i < n ensures QuotesLine(source[i], block.lines[i]) {
      QuoteShows(source[i]);
    }
  }

  // ---------------------------------------------------------------------------------------------
  // The whole document
  // ---------------------------------------------------------------------------------------------

  function LinesIn(piece: Piece): seq<string> {
    match piece case Gap(line) => [line] case Used(_, source) => source
  }

  /** The lines of all pieces, one after the other. */
  function LinesOf(pieces: seq<Piece>): seq<string> {
    if pieces == [] then [] else LinesIn(pieces[0]) + LinesOf(pieces[1..])
  }

  ghost predicate Sound(piece: Piece) {
    match piece case Gap(line) => Blank(line) case Used(block, source) => Shows(source, block)
  }

  lemma {:induction false} LinesOfAppend(a: seq<Piece>, b: seq<Piece>)
    ensures LinesOf(a + b) == LinesOf(a) + LinesOf(b)
  {
    if a == [] {
      assert a + b == b;
    } else {
      assert (a + b)[1..] == a[1..] + b;
      LinesOfAppend(a[1..], b);
      Assoc(LinesIn(a[0]), LinesOf(a[1..]), LinesOf(b));
    }
  }

  /** The pieces hold exactly these lines, in order, and each says what its lines say. */
  ghost predicate Kept(pieces: seq<Piece>, lines: seq<string>) {
    LinesOf(pieces) == lines && forall p :: p in pieces ==> Sound(p)
  }

  lemma FlushShows(para: seq<string>)
    requires forall l :: l in para ==> !Blank(l)
    ensures Kept(Flush(para), para)
  {
    hide Blank, Trim;
    if para != [] {
      assert Flush(para)[1..] == [] && para + [] == para;
    }
    assert LinesOf(Flush(para)) == para;
  }

  /** Every line of every document, well formed or not, is in exactly one piece, in document order; the lines
      outside blocks are blank; and each block shows what its lines say. */
  lemma {:induction false} EveryLineIsKept(lines: seq<string>, para: seq<string>)
    requires forall l :: l in para ==> !Blank(l)
    ensures Kept(Pieces(lines, para), para + lines)
    decreases |lines|
  {
    hide Blank, Opened, Flush, Kept, Shows;
    FlushShows(para);
    if lines == [] {
      assert para + lines == para;
    } else if Blank(lines[0]) {
      EveryLineIsKept(lines[1..], []);
      GapIsKept(lines[0]);
      KeptAfter(para, Gap(lines[0]), [lines[0]], lines[1..]);
      assert lines == [lines[0]] + lines[1..];
    } else {
      OpenedShows(lines);
      match Opened(lines)
      case Some((block, n)) =>
        EveryLineIsKept(lines[n..], []);
        UsedIsKept(block, lines[..n]);
        KeptAfter(para, Used(block, lines[..n]), lines[..n], lines[n..]);
        assert lines == lines[..n] + lines[n..];
      case None =>
        EveryLineIsKept(lines[1..], para + [lines[0]]);
        assert para + [lines[0]] + lines[1..] == para + lines;
    }
  }

  lemma GapIsKept(line: string)
    requires Blank(line)
    ensures Kept([Gap(line)], [line])
  {
    hide Blank;
    assert [Gap(line)][1..] == [] && [line] + [] == [line];
    assert LinesOf([Gap(line)]) == [line];
  }

  lemma UsedIsKept(block: Block, source: seq<string>)
    requires Shows(source, block)
    ensures Kept([Used(block, source)], source)
  {
    hide Shows;
    assert [Used(block, source)][1..] == [] && source + [] == source;
    assert LinesOf([Used(block, source)]) == source;
  }

  lemma KeptAfter(para: seq<string>, piece: Piece, source: seq<string>, rest: seq<string>)
    requires Kept(Flush(para), para) && Kept([piece], source)
    requires Kept(Pieces(rest, []), [] + rest)
    ensures Kept(Flush(para) + ([piece] + Pieces(rest, [])), para + (source + rest))
  {
    hide Pieces, Flush, Sound;
    LinesOfAppend(Flush(para), [piece] + Pieces(rest, []));
    LinesOfAppend([piece], Pieces(rest, []));
    assert [] + rest == rest;
  }

  /** Conservation for a whole text. */
  lemma ParseKeepsEveryLine(markdown: string)
    ensures var pieces := Pieces(Split(markdown, '\n'), []);
      && Kept(pieces, Split(markdown, '\n'))
      && Join(LinesOf(pieces), "\n") == markdown
      && BlocksOf(pieces) == Parse(markdown)
  {
    var lines := Split(markdown, '\n');
    EveryLineIsKept(lines, []);
    assert [] + lines == lines;
    JoinSplit(markdown, '\n');
  }

  // ---------------------------------------------------------------------------------------------
  // Table cells
  // ---------------------------------------------------------------------------------------------

  /** What is left of a line without white space and bars. */
  function Ink(s: string): string {
    if s == "" then "" else (if IsSpace(s[0]) || s[0] == '|' then "" else [s[0]]) + Ink(s[1..])
  }

  function InkOf(parts: seq<string>): string {
    if parts == [] then "" else Ink(parts[0]) + InkOf(parts[1..])
  }

  lemma {:induction false} InkAppend(a: string, b: string)
    ensures Ink(a + b) == Ink(a) + Ink(b)
  {
    if a == "" {
      assert a + b == b;
    } else {
      assert (a + b)[1..] == a[1..] + b;
      InkAppend(a[1..], b);
    }
  }

  lemma {:induction false} NoInk(s: string)
    requires forall i :: 0 <= i < |s| ==> IsSpace(s[i]) || s[i] == '|'
    ensures Ink(s) == ""
  {
    if s != "" {
      NoInk(s[1..]);
    }
  }

  lemma InkTrim(s: string)
    ensures Ink(Trim(s)) == Ink(s)
  {
    hide Trim;
    var before, after := TrimMeaning(s);
    NoInk(before);
    NoInk(after);
    InkAppend(before + Trim(s), after);
    InkAppend(before, Trim(s));
  }

  lemma {:induction false} InkTrimAll(parts: seq<string>)
    ensures InkOf(TrimAll(parts)) == InkOf(parts)
  {
    if parts != [] {
      InkTrim(parts[0]);
      InkTrimAll(parts[1..]);
      assert TrimAll(parts)[1..] == TrimAll(parts[1..]);
    }
  }

  lemma {:induction false} InkSplit(s: string)
    ensures InkOf(Split(s, '|')) == Ink(s)
  {
    hide Ink, InkOf, IsSpace;
    if s == "" {
      assert Split(s, '|') == [""] + [];
      InkOfFirst("", []);
      NoParts();
    } else {
      InkSplit(s[1..]);
      InkSplitFirst(s);
    }
  }

  lemma InkSplitFirst(s: string)
    requires s != "" && InkOf(Split(s[1..], '|')) == Ink(s[1..])
    ensures InkOf(Split(s, '|')) == Ink(s)
  {
    hide Ink, InkOf, Split, IsSpace;
    var rest, c := Split(s[1..], '|'), [s[0]];
    SplitFirst(s, '|');
    assert s == c + s[1..];
    InkAppend(c, s[1..]);
    if s[0] == '|' {
      InkOfFirst("", rest);
      BarHasNoInk();
    } else {
      InkOfFirst(c + rest[0], rest[1..]);
      InkOfFirst(rest[0], rest[1..]);
      assert rest == [rest[0]] + rest[1..];
      InkAppend(c, rest[0]);
      Assoc(Ink(c), Ink(rest[0]), InkOf(rest[1..]));
    }
  }

  lemma InkOfFirst(part: string, parts: seq<string>)
    ensures InkOf([part] + parts) == Ink(part) + InkOf(parts)
  {
    hide Ink;
    assert ([part] + parts)[1..] == parts;
  }

  lemma NoParts()
    ensures InkOf([]) == ""
  {}

  lemma BarHasNoInk()
    ensures Ink("") == Ink("|") == ""
  {
    assert "|"[1..] == "";
  }

  /** A table row's cells hold everything on its line but white space and bars, in order. */
  lemma SplitRowKeepsInk(line: string)
    ensures InkOf(SplitRow(line)) == Ink(line)
    ensures forall cell :: cell in SplitRow(line) ==> Trimmed(cell)
  {
    hide Trim, Split, Ink, InkOf;
    var s := Trim(line);
    InkTrim(line);
    InkStripBars(s);
    InkSplit(StripBars(s));
    InkTrimAll(Split(StripBars(s), '|'));
    var parts := Split(StripBars(s), '|');
    forall cell | cell in SplitRow(line) ensures Trimmed(cell) {
      var i :| 0 <= i < |parts| && TrimAll(parts)[i] == cell;
      TrimTwice(parts[i]);
    }
  }

  lemma InkStripBars(s: string)
    ensures Ink(StripBars(s)) == Ink(s)
  {
    hide Ink;
    NoInk("|");
    var t := if s != "" && s[0] == '|' then s[1..] else s;
    if t != s {
      assert s == "|" + t;
      InkAppend("|", t);
    }
    if t != "" && t[|t| - 1] == '|' {
      assert t == t[..|t| - 1] + "|";
      InkAppend(t[..|t| - 1], "|");
    }
  }
}
