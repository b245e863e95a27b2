/** Reading the assistant's prompt back: a decoder for everything businessAssistantPrompt writes
    (packages/core/src/ai/business-assistant.ts), and the proof that nothing it writes is lost or altered. */
module PromptReader {
  import opened Text
  import opened Decimal
  import opened Json
  import opened BusinessAssistant

  /** What a block says: whose rows these are, how many were left out, and the rows. */
  datatype Section = Section(name: string, omitted: nat, rows: seq<Value>)

  // ---------------------------------------------------------------------------------------------
  // Headers
  // ---------------------------------------------------------------------------------------------

  /** One more than the place of the last such character; zero, if there is none. */
  function AfterLast(s: string, c: char): (n: nat)
    ensures n <= |s|
  {
    if s == "" then 0 else if s[|s| - 1] == c then |s| else AfterLast(s[..|s| - 1], c)
  }

  function DigitRun(s: string): (n: nat)
    ensures n <= |s| && AllDigits(s[..n])
  {
    if s != "" && IsDigit(s[0]) then
      assert forall i :: 0 <= i < 1 + DigitRun(s[1..]) ==> s[..1 + DigitRun(s[1..])][i] == s[i];
      assert forall i :: 0 <= i < DigitRun(s[1..]) ==> s[1..][..DigitRun(s[1..])][i] == s[i + 1];
      1 + DigitRun(s[1..])
    else 0
  }

  /** The number at the start of a text, and what follows it. */
  function ReadDigits(s: string): (nat, string) { (Decimal.Value(s[..DigitRun(s)]), s[DigitRun(s)..]) }

  /** The counts in a header's brackets. */
  function ReadCounts(tail: string): Option<(nat, nat)> {
    var (shown, rest) := ReadDigits(tail);
    if rest == " rows)" then Some((shown, 0))
    else if !StartsWith(rest, " rows, ") then None
    else
      var (omitted, end) := ReadDigits(rest[7..]);
      if end == " more not shown)" then Some((shown, omitted)) else None
  }

  /** The name and the counts of a header line. */
  function ReadHeader(line: string): Option<(string, nat, nat)> {
    var p := AfterLast(line, '(');
    if !StartsWith(line, "## ") || p < 5 then None
    else
      match ReadCounts(line[p..])
      case None => None
      case Some((shown, omitted)) => Some((line[3..p - 2], shown, omitted))
  }

  function Counts(shown: nat, omitted: nat): string {
    Digits(shown) + (if omitted > 0 then " rows, " + (Digits(omitted) + " more not shown)") else " rows)")
  }

  function HeaderLine(name: string, shown: nat, omitted: nat): string {
    "## " + (name + (" (" + Counts(shown, omitted)))
  }

  lemma HeaderIsLine(name: string, shown: nat, omitted: nat)
    ensures Header(name, shown, omitted) == HeaderLine(name, shown, omitted) + "\n"
  {
    hide Digits;
    if omitted > 0 {
      assert Header(name, shown, omitted) == "## " + name + " (" + Digits(shown) + " rows"
        + (", " + Digits(omitted) + " more not shown") + ")\n";
      assert Header(name, shown, omitted) == HeaderLine(name, shown, omitted) + "\n";
    } else {
      assert Header(name, shown, omitted) == "## " + name + " (" + Digits(shown) + " rows" + "" + ")\n";
      assert Header(name, shown, omitted) == HeaderLine(name, shown, omitted) + "\n";
    }
  }

  lemma {:induction false} AfterLastIs(before: string, c: char, after: string)
    requires c !in after
    ensures AfterLast(before + ([c] + after), c) == |before| + 1
  {
    var s := before + ([c] + after);
    if after == "" {
      assert s[|s| - 1] == c;
    } else {
      assert s[|s| - 1] == after[|after| - 1];
      assert s[..|s| - 1] == before + ([c] + after[..|after| - 1]);
      AfterLastIs(before, c, after[..|after| - 1]);
    }
  }

  lemma {:induction false} DigitRunIs(digits: string, rest: string)
    requires AllDigits(digits) && (rest != "" ==> !IsDigit(rest[0]))
    ensures DigitRun(digits + rest) == |digits|
  {
    if digits == "" {
      assert digits + rest == rest;
    } else {
      assert (digits + rest)[1..] == digits[1..] + rest;
      DigitRunIs(digits[1..], rest);
    }
  }

  lemma NumberReads(n: nat, rest: string)
    requires rest != "" ==> !IsDigit(rest[0])
    ensures ReadDigits(Digits(n) + rest) == (n, rest)
  {
    hide Decimal.Value, Digits;
    DigitRunIs(Digits(n), rest);
    var s := Digits(n) + rest;
    assert s[..|Digits(n)|] == Digits(n) && s[|Digits(n)|..] == rest;
    ValueOfDigits(n);
  }

  lemma CountsRead(shown: nat, omitted: nat)
    ensures ReadCounts(Counts(shown, omitted)) == Some((shown, omitted))
  {
    hide ReadDigits, Digits;
    if omitted > 0 {
      var rest := " rows, " + (Digits(omitted) + " more not shown)");
      NumberReads(shown, rest);
      assert rest[..7] == " rows, " && rest[7..] == Digits(omitted) + " more not shown)";
      assert |rest| > 7 && rest != " rows)" by { assert |" rows)"| == 6; }
      NumberReads(omitted, " more not shown)");
    } else {
      NumberReads(shown, " rows)");
    }
  }

  lemma DigitsLackBrackets(n: nat)
    ensures '(' !in Digits(n) && '\n' !in Digits(n)
  {}

  lemma CountsLackBrackets(shown: nat, omitted: nat)
    ensures '(' !in Counts(shown, omitted) && '\n' !in Counts(shown, omitted)
  {
    hide Digits;
    DigitsLackBrackets(shown);
    DigitsLackBrackets(omitted);
  }

  /** Every header, whatever the name, reads back. */
  lemma HeaderReads(name: string, shown: nat, omitted: nat)
    ensures ReadHeader(HeaderLine(name, shown, omitted)) == Some((name, shown, omitted))
  {
    hide Counts, ReadCounts;
    var line, counts := HeaderLine(name, shown, omitted), Counts(shown, omitted);
    CountsLackBrackets(shown, omitted);
    var before := "## " + (name + " ");
    assert line == before + (['('] + counts);
    AfterLastIs(before, '(', counts);
    var p := |before| + 1;
    assert line[p..] == counts && line[3..p - 2] == name && line[..3] == "## ";
    CountsRead(shown, omitted);
  }

  // ---------------------------------------------------------------------------------------------
  // Blocks
  // ---------------------------------------------------------------------------------------------

  /** How many lines come before the first empty one. */
  function RowRun(lines: seq<string>): (n: nat)
    ensures n <= |lines|
  {
    if lines != [] && lines[0] != "" then 1 + RowRun(lines[1..]) else 0
  }

  function DecodeRows(lines: seq<string>): Option<seq<Value>> {
    if lines == [] then Some([])
    else
      match (Decode(lines[0]), DecodeRows(lines[1..]))
      case (Some(row), Some(rows)) => Some([row] + rows)
      case _ => None
  }

  /** The sections of one or more blocks: a header, its rows or one empty line, and an empty line between blocks. */
  function ReadSections(lines: seq<string>): Option<seq<Section>>
    decreases |lines|
  {
    if lines == [] || ReadHeader(lines[0]).None? then None
    else
      var (name, shown, omitted) := ReadHeader(lines[0]).value;
      var n := RowRun(lines[1..]);
      var used := if n == 0 then 2 else 1 + n;
      var rows := DecodeRows(lines[1..][..n]);
      if used > |lines| || rows.None? || |rows.value| != shown then None
      else if used == |lines| then Some([Section(name, omitted, rows.value)])
      else
        match ReadSections(lines[used..][1..])
        case None => None
        case Some(more) => Some([Section(name, omitted, rows.value)] + more)
  }

  function Lines(rows: seq<Value>): (lines: seq<string>)
    ensures |lines| == |rows|
  {
    seq(|rows|, i requires 0 <= i < |rows| => Guard(Stringify(rows[i])))
  }

  function BodyLines(rows: seq<Value>): seq<string> { if rows == [] then [""] else Lines(rows) }

  function BlockLines(name: string, rows: seq<Value>, omitted: nat): seq<string> {
    [HeaderLine(name, |rows|, omitted)] + BodyLines(rows)
  }

  ghost predicate Fits(records: seq<Resource>, shown: seq<seq<Value>>) {
    |shown| == |records| && forall i :: 0 <= i < |records| ==> |shown[i]| <= |records[i].data|
  }

  function AllLines(records: seq<Resource>, shown: seq<seq<Value>>): seq<string>
    requires Fits(records, shown)
  {
    if records == [] then []
    else
      BlockLines(records[0].name, shown[0], |records[0].data| - |shown[0]|)
      + (if |records| == 1 then [] else [""] + AllLines(records[1..], shown[1..]))
  }

  function Sections(records: seq<Resource>, shown: seq<seq<Value>>): (r: seq<Section>)
    requires Fits(records, shown)
    ensures |r| == |records|
  {
    seq(|records|, i requires 0 <= i < |records| =>
      Section(records[i].name, |records[i].data| - |shown[i]|, shown[i]))
  }

  ghost predicate GoodRows(rows: seq<Value>) { forall v :: v in rows ==> WellFormed(v) }

  lemma {:induction false} RowsRead(rows: seq<Value>, rest: seq<string>)
    requires GoodRows(rows) && (rest != [] ==> rest[0] == "")
    ensures RowRun(Lines(rows) + rest) == |rows| && DecodeRows(Lines(rows)) == Some(rows)
  {
    hide Guard, Stringify, Decode, WellFormed;
    if rows == [] {
      assert Lines(rows) + rest == rest;
    } else {
      assert rows == [rows[0]] + rows[1..];
      RowsRead(rows[1..], rest);
      assert (Lines(rows) + rest)[1..] == Lines(rows[1..]) + rest;
      assert Lines(rows)[1..] == Lines(rows[1..]);
      assert Lines(rows)[0] == Guard(Stringify(rows[0])) == (Lines(rows) + rest)[0];
      assert WellFormed(rows[0]);
      RowIsLine(rows[0]);
    }
  }

  lemma RowIsLine(v: Value)
    requires WellFormed(v)
    ensures var line := Guard(Stringify(v)); line != "" && '\n' !in line && Decode(line) == Some(v)
  {
    hide Guard, Stringify, Decode, WellFormed;
    OnOneLine(v);
    GuardShape(Stringify(v));
    DecodeGuarded(v);
  }

  lemma BodyReads(rows: seq<Value>, tail: seq<string>)
    requires GoodRows(rows) && (tail != [] ==> tail[0] == "")
    ensures var lines := BodyLines(rows) + tail;
      RowRun(lines) == |rows| && DecodeRows(lines[..|rows|]) == Some(rows)
  {
    hide DecodeRows, RowRun, Lines, GoodRows;
    var lines := BodyLines(rows) + tail;
    if rows == [] {
      RowsRead(rows, lines);
      assert Lines(rows) + lines == lines && lines[..0] == Lines(rows);
    } else {
      RowsRead(rows, tail);
      assert lines[..|rows|] == Lines(rows);
    }
  }

  /** A block in front is read as its section, and what follows the empty line after it as the others. */
  lemma BlockInFront(name: string, rows: seq<Value>, omitted: nat, tail: seq<string>)
    requires GoodRows(rows) && (tail != [] ==> tail[0] == "")
    ensures ReadSections(BlockLines(name, rows, omitted) + tail)
         == if tail == [] then Some([Section(name, omitted, rows)])
            else match ReadSections(tail[1..])
                 case None => None
                 case Some(more) => Some([Section(name, omitted, rows)] + more)
  {
    hide HeaderLine, ReadHeader, ReadSections, DecodeRows, RowRun, Lines, GoodRows;
    var lines, body := BlockLines(name, rows, omitted) + tail, BodyLines(rows);
    HeaderReads(name, |rows|, omitted);
    BodyReads(rows, tail);
    assert lines[1..] == body + tail;
    assert |body| == if rows == [] then 1 else |rows|;
    assert lines[1 + |body|..] == tail;
    SectionStep(lines, name, omitted, rows);
  }

  /** The first section of some lines, and the sections after the empty line behind it. */
  lemma SectionStep(lines: seq<string>, name: string, omitted: nat, rows: seq<Value>)
    requires lines != [] && ReadHeader(lines[0]) == Some((name, |rows|, omitted))
    requires RowRun(lines[1..]) == |rows| && DecodeRows(lines[1..][..|rows|]) == Some(rows)
    ensures var used := if rows == [] then 2 else 1 + |rows|;
      used <= |lines| ==>
        ReadSections(lines) == if used == |lines| then Some([Section(name, omitted, rows)])
                               else match ReadSections(lines[used..][1..])
                                    case None => None
                                    case Some(more) => Some([Section(name, omitted, rows)] + more)
  {
    hide ReadHeader, RowRun, DecodeRows;
  }

  /** One block, and what follows it after an empty line, if anything does. */
  lemma BlockReads(name: string, rows: seq<Value>, omitted: nat, rest: seq<string>)
    requires GoodRows(rows)
    ensures var lines := BlockLines(name, rows, omitted);
      && ReadSections(lines) == Some([Section(name, omitted, rows)])
      && (ReadSections(rest).Some? ==>
            ReadSections(lines + ([""] + rest)) == Some([Section(name, omitted, rows)] + ReadSections(rest).value))
  {
    hide BlockLines, ReadSections, GoodRows;
    var lines := BlockLines(name, rows, omitted);
    BlockInFront(name, rows, omitted, []);
    assert lines + [] == lines;
    BlockInFront(name, rows, omitted, [""] + rest);
    assert ([""] + rest)[1..] == rest;
  }

  lemma {:induction false} SectionsRead(records: seq<Resource>, shown: seq<seq<Value>>)
    requires records != [] && Fits(records, shown) && forall rows :: rows in shown ==> GoodRows(rows)
    ensures ReadSections(AllLines(records, shown)) == Some(Sections(records, shown))
  {
    hide ReadSections, BlockLines, GoodRows;
    var omitted := |records[0].data| - |shown[0]|;
    var block := BlockLines(records[0].name, shown[0], omitted);
    if |records| == 1 {
      BlockReads(records[0].name, shown[0], omitted, []);
      assert block + [] == block;
      assert Sections(records, shown) == [Section(records[0].name, omitted, shown[0])];
    } else {
      SectionsRead(records[1..], shown[1..]);
      BlockReads(records[0].name, shown[0], omitted, AllLines(records[1..], shown[1..]));
      assert Sections(records, shown)
        == [Section(records[0].name, omitted, shown[0])] + Sections(records[1..], shown[1..]);
    }
  }

  // ---------------------------------------------------------------------------------------------
  // The records text
  // ---------------------------------------------------------------------------------------------

  lemma {:induction false} JoinBoth(a: seq<string>, b: seq<string>, sep: string)
    requires a != [] && b != []
    ensures Join(a + b, sep) == Join(a, sep) + (sep + Join(b, sep))
  {
    if |a| == 1 {
      assert (a + b)[1..] == b && (a + b)[0] == a[0];
      Assoc(a[0], sep, Join(b, sep));
    } else {
      assert (a + b)[1..] == a[1..] + b && (a + b)[0] == a[0];
      JoinBoth(a[1..], b, sep);
      Assoc(a[0] + sep, Join(a[1..], sep), sep + Join(b, sep));
    }
  }

  lemma BodyIsLines(rows: seq<Value>)
    ensures Body(rows) == Join(Lines(rows), "\n")
  {
    hide Guard, Stringify, Join;
    GuardJoin(RowTexts(rows));
    var texts := RowTexts(rows);
    assert seq(|texts|, i requires 0 <= i < |texts| => Guard(texts[i])) == Lines(rows);
  }

  lemma BlockIsLines(name: string, rows: seq<Value>, omitted: nat)
    ensures Block(name, rows, omitted) == Join(BlockLines(name, rows, omitted), "\n")
  {
    hide HeaderLine, Header, Body, Lines;
    var header := HeaderLine(name, |rows|, omitted);
    HeaderIsLine(name, |rows|, omitted);
    BodyIsLines(rows);
    var body := if rows == [] then [""] else Lines(rows);
    JoinBoth([header], body, "\n");
    assert Join([header], "\n") == header;
    if rows == [] {
      assert Lines(rows) == [];
      assert Join([""], "\n") == "" && Body(rows) == "";
    }
    Assoc(header, "\n", Body(rows));
  }

  lemma {:induction false} BlocksAreLines(records: seq<Resource>, shown: seq<seq<Value>>)
    requires records != [] && Fits(records, shown)
    ensures Join(Blocks(records, shown), "\n\n") == Join(AllLines(records, shown), "\n")
  {
    hide Block, BlockLines, Join;
    var omitted := |records[0].data| - |shown[0]|;
    var block, lines := Block(records[0].name, shown[0], omitted), BlockLines(records[0].name, shown[0], omitted);
    BlockIsLines(records[0].name, shown[0], omitted);
    JoinOne(block, "\n\n");
    BlockHasLines(records[0].name, shown[0], omitted);
    if |records| == 1 {
      assert Blocks(records, shown) == [block] && lines + [] == lines;
    } else {
      var rest := AllLines(records[1..], shown[1..]);
      BlocksAreLines(records[1..], shown[1..]);
      assert Blocks(records, shown) == [block] + Blocks(records[1..], shown[1..]);
      JoinBoth([block], Blocks(records[1..], shown[1..]), "\n\n");
      LinesNonEmpty(records[1..], shown[1..]);
      JoinBoth(lines, [""] + rest, "\n");
      JoinBoth([""], rest, "\n");
      JoinOne("", "\n");
      assert "\n" + ("" + ("\n" + Join(rest, "\n"))) == "\n\n" + Join(rest, "\n");
    }
  }

  lemma JoinOne(s: string, sep: string)
    ensures Join([s], sep) == s
  {}

  lemma BlockHasLines(name: string, rows: seq<Value>, omitted: nat)
    ensures BlockLines(name, rows, omitted) != []
  {}

  lemma LinesNonEmpty(records: seq<Resource>, shown: seq<seq<Value>>)
    requires records != [] && Fits(records, shown)
    ensures AllLines(records, shown) != []
  {}

  lemma {:induction false} LinesAreLines(records: seq<Resource>, shown: seq<seq<Value>>)
    requires Fits(records, shown) && forall rows :: rows in shown ==> GoodRows(rows)
    requires forall r :: r in records ==> '\n' !in r.name
    ensures forall l :: l in AllLines(records, shown) ==> '\n' !in l
  {
    hide BlockLines, GoodRows, WellFormed;
    if records != [] {
      assert records == [records[0]] + records[1..] && shown == [shown[0]] + shown[1..];
      LinesAreLines(records[1..], shown[1..]);
      BlockLinesAreLines(records[0].name, shown[0], |records[0].data| - |shown[0]|);
    }
  }

  lemma BlockLinesAreLines(name: string, rows: seq<Value>, omitted: nat)
    requires GoodRows(rows) && '\n' !in name
    ensures forall l :: l in BlockLines(name, rows, omitted) ==> '\n' !in l
  {
    hide Guard, Stringify, Counts, WellFormed;
    CountsLackBrackets(|rows|, omitted);
    forall l | l in Lines(rows) ensures '\n' !in l {
      var i :| 0 <= i < |rows| && Lines(rows)[i] == l;
      assert rows[i] in rows;
      RowIsLine(rows[i]);
    }
  }

  lemma ShownFits(records: seq<Resource>, budget: nat)
    ensures Fits(records, Shown(records, 0, budget))
  {}

  /** What formatRecords writes reads back: each resource in order, under its name, with how many rows were left out
      and exactly the rows shown. */
  lemma FormatReadsBack(records: seq<Resource>, budget: nat)
    requires records != [] && Printable(records) && forall r :: r in records ==> '\n' !in r.name
    ensures Fits(records, Shown(records, 0, budget))
    ensures ReadSections(Split(Format(records, budget), '\n'))
         == Some(Sections(records, Shown(records, 0, budget)))
  {
    hide Shown, Blocks, AllLines, Join, Split, ReadSections, GoodRows, Printable, Sections;
    var shown := Shown(records, 0, budget);
    ShownFits(records, budget);
    ShownAreGood(records, budget);
    BlocksAreLines(records, shown);
    LinesNonEmpty(records, shown);
    LinesAreLines(records, shown);
    SplitJoin(AllLines(records, shown), '\n');
    SectionsRead(records, shown);
  }

  lemma ShownAreGood(records: seq<Resource>, budget: nat)
    requires Printable(records)
    ensures forall rows :: rows in Shown(records, 0, budget) ==> GoodRows(rows)
  {
    hide Shown, Printable, WellFormed;
    ShownAreWellFormed(records, budget);
  }

  // ---------------------------------------------------------------------------------------------
  // The prompt
  // ---------------------------------------------------------------------------------------------

  /** Where a word occurs first, looking from a place on. */
  function FirstAt(s: string, word: string, from: nat): (at: Option<nat>)
    ensures at.Some? ==> at.value + |word| <= |s|
    decreases |s| - from
  {
    if from + |word| > |s| || from >= |s| then None
    else if OccursAt(s, word, from) then Some(from)
    else FirstAt(s, word, from + 1)
  }

  lemma {:induction false} FirstAtIs(s: string, word: string, from: nat, at: nat)
    requires word != "" && from <= at && OccursAt(s, word, at) && forall i :: OccursAt(s, word, i) ==> i == at
    ensures FirstAt(s, word, from) == Some(at)
    decreases at - from
  {
    if from < at {
      assert !OccursAt(s, word, from);
      FirstAtIs(s, word, from + 1, at);
    }
  }

  /** The question and the sections of a prompt. */
  function ReadPrompt(prompt: string): Option<(string, seq<Section>)> {
    var open, close := FirstAt(prompt, OPEN, 0), FirstAt(prompt, CLOSE, 0);
    if open.None? || close.None? || open.value < 12 || close.value < open.value + 11 then None
    else
      match (Decode(prompt[10..open.value - 2]), ReadSections(Split(prompt[open.value + 10..close.value - 1], '\n')))
      case (Some(Str(question)), Some(sections)) => Some((question, sections))
      case _ => None
  }

  /** A whole prompt reads back: the question asked, and every resource with its shown rows and the count of those left
      out, in the order given, whatever the question and the records say. */
  lemma PromptReadsBack(question: string, records: seq<Resource>)
    requires records != [] && Printable(records)
    requires forall r :: r in records ==> '<' !in r.name && '\n' !in r.name
    ensures Fits(records, Shown(records, 0, MAX_RECORDS_CHARS))
    ensures ReadPrompt(Prompt(question, records))
         == Some((question, Sections(records, Shown(records, 0, MAX_RECORDS_CHARS))))
  {
    hide Format, Guard, Quote, Decode, Shown, Sections, ReadSections, Split, OccursAt, FirstAt, Prompt;
    var prompt, text := Prompt(question, records), Format(records, MAX_RECORDS_CHARS);
    var quoted := Guard(Quote(question));
    var asked, inner := "Question: " + quoted + "\n\n", "\n" + text + "\n";
    PromptHasOneBlock(question, records);
    FormatReadsBack(records, MAX_RECORDS_CHARS);
    FirstAtIs(prompt, OPEN, 0, |asked|);
    FirstAtIs(prompt, CLOSE, 0, |asked| + |OPEN| + |inner|);
    PromptParts(question, records);
  }

  lemma PromptParts(question: string, records: seq<Resource>)
    ensures var prompt, text := Prompt(question, records), Format(records, MAX_RECORDS_CHARS);
      var quoted := Guard(Quote(question));
      var open := 12 + |quoted|;
      var close := open + 11 + |text|;
      close < |prompt| && prompt[10..open - 2] == quoted && prompt[open + 10..close - 1] == text
  {
    hide Format, Guard, Quote;
    var text, quoted := Format(records, MAX_RECORDS_CHARS), Guard(Quote(question));
    var asked := "Question: " + quoted + "\n\n";
    var prompt := Prompt(question, records);
    assert |asked| == 12 + |quoted| && |OPEN| == 9;
    assert prompt == asked + (OPEN + ("\n" + text + "\n") + CLOSE);
    assert prompt[..|asked|] == asked && asked[10..|asked| - 2] == quoted;
  }
}
