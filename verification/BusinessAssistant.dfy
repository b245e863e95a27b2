/** The assistant's prompt (packages/core/src/ai/business-assistant.ts): a budgeted printer of JSON rows whose
    output stays inside one records block and still decodes to the rows it kept. */
module BusinessAssistant {
  import opened Text
  import opened Decimal
  import opened Json

  const MAX_RECORDS_CHARS: nat := 60000
  const OPEN: string := "<records>"
  const CLOSE: string := "</records>"

  datatype Resource = Resource(name: string, data: seq<Value>)

  predicate Printable(records: seq<Resource>) {
    forall r :: r in records ==> forall v :: v in r.data ==> WellFormed(v)
  }

  // ---------------------------------------------------------------------------------------------
  // The printer
  // ---------------------------------------------------------------------------------------------

  function RowTexts(rows: seq<Value>): (texts: seq<string>)
    ensures |texts| == |rows|
  {
    seq(|rows|, i requires 0 <= i < |rows| => Stringify(rows[i]))
  }

  /** The characters a list of rows takes before guarding. */
  function Size(rows: seq<Value>): nat {
    if rows == [] then 0 else Size(rows[..|rows| - 1]) + |Stringify(rows[|rows| - 1])|
  }

  /** How many of the rows from the k-th on are kept once `used` characters are spent. */
  function KeptFrom(data: seq<Value>, k: nat, used: nat, budget: nat): (n: nat)
    requires k <= |data|
    ensures n <= |data| - k
    decreases |data| - k
  {
    if k == |data| || used + |Stringify(data[k])| > budget then 0
    else 1 + KeptFrom(data, k + 1, used + |Stringify(data[k])|, budget)
  }

  function Kept(data: seq<Value>, used: nat, budget: nat): seq<Value> {
    data[..KeptFrom(data, 0, used, budget)]
  }

  function Body(rows: seq<Value>): string { Guard(Join(RowTexts(rows), "\n")) }

  function Header(name: string, shown: nat, omitted: nat): string {
    "## " + name + " (" + Digits(shown) + " rows"
    + (if omitted > 0 then ", " + Digits(omitted) + " more not shown" else "") + ")\n"
  }

  function Block(name: string, shown: seq<Value>, omitted: nat): string {
    Header(name, |shown|, omitted) + Body(shown)
  }

  /** The rows shown of each resource. */
  function Shown(records: seq<Resource>, used: nat, budget: nat): (shown: seq<seq<Value>>)
    ensures |shown| == |records|
    ensures forall i :: 0 <= i < |records| ==> |shown[i]| <= |records[i].data|
  {
    if records == [] then []
    else
      var rows := Kept(records[0].data, used, budget);
      [rows] + Shown(records[1..], used + Size(rows), budget)
  }

  function Blocks(records: seq<Resource>, shown: seq<seq<Value>>): seq<string>
    requires |shown| == |records|
    requires forall i :: 0 <= i < |records| ==> |shown[i]| <= |records[i].data|
  {
    seq(|records|, i requires 0 <= i < |records| =>
      Block(records[i].name, shown[i], |records[i].data| - |shown[i]|))
  }

  function Format(records: seq<Resource>, budget: nat): string {
    Join(Blocks(records, Shown(records, 0, budget)), "\n\n")
  }

  /** The inner loop: keep rows of one resource until one does not fit. */
  method KeepRows(data: seq<Value>, spent: nat, budget: nat) returns (rows: seq<string>, used: nat)
    ensures rows == RowTexts(Kept(data, spent, budget))
    ensures used == spent + Size(Kept(data, spent, budget))
  {
    used := spent;
    rows := [];
    var k := 0;
    while k < |data|
      invariant 0 <= k <= |data|
      invariant rows == RowTexts(data[..k])
      invariant used == spent + Size(data[..k])
      invariant KeptFrom(data, 0, spent, budget) == k + KeptFrom(data, k, used, budget)
    {
      var row := Stringify(data[k]);
      if used + |row| > budget { break; }
      assert data[..k + 1][..k] == data[..k];
      used := used + |row|;
      rows := rows + [row];
      k := k + 1;
    }
  }

  method FormatRecords(records: seq<Resource>, budget: nat := MAX_RECORDS_CHARS) returns (text: string)
    ensures text == Format(records, budget)
  {
    hide Shown, Kept, Size, Header, RowTexts, Guard;
    var used: nat := 0;
    var blocks: seq<string> := [];
    ghost var all := Shown(records, 0, budget);
    var r := 0;
    assert records[0..] == records && all[0..] == all;
    while r < |records|
      invariant 0 <= r <= |records|
      invariant all[r..] == Shown(records[r..], used, budget)
      invariant blocks == Blocks(records, all)[..r]
    {
      var data := records[r].data;
      ShownTail(records, all, r, used, budget);
      var rows;
      rows, used := KeepRows(data, used, budget);
      assert all[r + 1..] == Shown(records[r + 1..], used, budget);
      var omitted := |data| - |rows|;
      var body := Guard(Join(rows, "\n"));
      BlocksStep(records, all, r);
      blocks := blocks + [Header(records[r].name, |rows|, omitted) + body];
      r := r + 1;
    }
    assert blocks == Blocks(records, all);
    text := Join(blocks, "\n\n");
  }

  lemma BlocksStep(records: seq<Resource>, all: seq<seq<Value>>, r: nat)
    requires |all| == |records| && r < |records|
    requires forall i :: 0 <= i < |records| ==> |all[i]| <= |records[i].data|
    ensures Blocks(records, all)[..r + 1] == Blocks(records, all)[..r]
         + [Block(records[r].name, all[r], |records[r].data| - |all[r]|)]
  {}

  /** One resource further: what it shows, and what the ones after it show. */
  lemma ShownTail(records: seq<Resource>, all: seq<seq<Value>>, r: nat, used: nat, budget: nat)
    requires |all| == |records| && r < |records|
    requires all[r..] == Shown(records[r..], used, budget)
    ensures all[r] == Kept(records[r].data, used, budget)
    ensures all[r + 1..] == Shown(records[r + 1..], used + Size(all[r]), budget)
  {
    hide Shown, Kept, Size;
    assert records[r..] == [records[r]] + records[r + 1..];
    ShownFirst(records[r], records[r + 1..], used, budget);
    assert all[r..] == [all[r]] + all[r + 1..];
  }

  lemma ShownFirst(record: Resource, later: seq<Resource>, used: nat, budget: nat)
    ensures var kept := Kept(record.data, used, budget);
      Shown([record] + later, used, budget) == [kept] + Shown(later, used + Size(kept), budget)
  {
    hide Kept, Size;
    assert ([record] + later)[1..] == later;
  }

  function Prompt(question: string, records: seq<Resource>): string {
    "Question: " + Guard(Quote(question)) + "\n\n"
    + (OPEN + ("\n" + Format(records, MAX_RECORDS_CHARS) + "\n") + CLOSE)
  }

  /** Only resources actually given count as sources. */
  function Sources(used: seq<string>, given: set<string>): seq<string> {
    if used == [] then []
    else (if used[0] in given then [used[0]] else []) + Sources(used[1..], given)
  }

  // ---------------------------------------------------------------------------------------------
  // What is kept
  // ---------------------------------------------------------------------------------------------

  lemma {:induction false} KeptFromFits(data: seq<Value>, k: nat, used: nat, budget: nat)
    requires k <= |data| && used <= budget
    ensures var n := KeptFrom(data, k, used, budget);
      && used + Size(data[..k + n]) - Size(data[..k]) <= budget
      && (k + n < |data| ==> used + Size(data[..k + n + 1]) - Size(data[..k]) > budget)
    decreases |data| - k
  {
    hide Stringify;
    if k < |data| {
      assert data[..k + 1][..k] == data[..k];
      if used + |Stringify(data[k])| <= budget {
        KeptFromFits(data, k + 1, used + |Stringify(data[k])|, budget);
      }
    }
  }

  lemma {:induction false} SizeGrows(data: seq<Value>, i: nat, j: nat)
    requires i <= j <= |data|
    ensures Size(data[..i]) <= Size(data[..j])
    decreases j
  {
    if i < j {
      assert data[..j][..j - 1] == data[..j - 1];
      SizeGrows(data, i, j - 1);
    }
  }

  function TotalSize(shown: seq<seq<Value>>): nat {
    if shown == [] then 0 else Size(shown[0]) + TotalSize(shown[1..])
  }

  lemma {:induction false} ShownWithinBudget(records: seq<Resource>, used: nat, budget: nat)
    requires used <= budget
    ensures used + TotalSize(Shown(records, used, budget)) <= budget
  {
    if records != [] {
      KeptFits(records[0].data, used, budget);
      ShownWithinBudget(records[1..], used + Size(Shown(records, used, budget)[0]), budget);
    }
  }

  /** What the i-th resource shows depends only on what the ones before it spent. */
  lemma {:induction false} ShownAt(
    records: seq<Resource>, all: seq<seq<Value>>, r: nat, used: nat, budget: nat, i: nat)
    requires |all| == |records| && r <= i < |records| && used <= budget
    requires all[r..] == Shown(records[r..], used, budget)
    ensures used + TotalSize(all[r..i]) <= budget
    ensures all[i] == Kept(records[i].data, used + TotalSize(all[r..i]), budget)
    decreases i - r
  {
    hide Shown, Kept, Size;
    ShownTail(records, all, r, used, budget);
    if r < i {
      KeptFits(records[r].data, used, budget);
      ShownAt(records, all, r + 1, used + Size(all[r]), budget, i);
      assert all[r..i][0] == all[r] && all[r..i][1..] == all[r + 1..i];
    } else {
      assert all[r..i] == [];
    }
  }

  lemma KeptFits(data: seq<Value>, used: nat, budget: nat)
    requires used <= budget
    ensures var n := |Kept(data, used, budget)|;
      && n <= |data| && Kept(data, used, budget) == data[..n]
      && used + Size(data[..n]) <= budget
      && (n < |data| ==> used + Size(data[..n + 1]) > budget)
  {
    KeptFromFits(data, 0, used, budget);
    assert data[..0] == [];
  }

  /** Each resource shows the longest prefix of its rows that still fits what the resources before it left:
      no longer prefix would have fitted, and together they never exceed the budget. */
  lemma ShownIsMaximalFit(records: seq<Resource>, budget: nat, i: nat, j: nat)
    requires i < |records|
    ensures var shown := Shown(records, 0, budget);
      && TotalSize(shown) <= budget
      && shown[i] == records[i].data[..|shown[i]|]
      && (|shown[i]| < j <= |records[i].data| ==>
           TotalSize(shown[..i]) + Size(records[i].data[..j]) > budget)
  {
    hide Stringify, Kept, KeptFrom, Size, TotalSize, Shown;
    var shown, data := Shown(records, 0, budget), records[i].data;
    ShownWithinBudget(records, 0, budget);
    assert records[0..] == records && shown[0..] == shown && shown[0..i] == shown[..i];
    ShownAt(records, shown, 0, 0, budget, i);
    KeptFits(data, TotalSize(shown[..i]), budget);
    if |shown[i]| < j <= |data| {
      SizeGrows(data, |shown[i]| + 1, j);
    }
  }

  // ---------------------------------------------------------------------------------------------
  // What a body decodes to
  // ---------------------------------------------------------------------------------------------

  lemma {:induction false} GuardJoin(texts: seq<string>)
    ensures Guard(Join(texts, "\n")) == Join(seq(|texts|, i requires 0 <= i < |texts| => Guard(texts[i])), "\n")
  {
    var guarded := seq(|texts|, i requires 0 <= i < |texts| => Guard(texts[i]));
    if |texts| > 1 {
      GuardJoin(texts[1..]);
      assert guarded[1..] == seq(|texts[1..]|, i requires 0 <= i < |texts[1..]| => Guard(texts[1..][i]));
      GuardShape("\n");
      GuardAppend(texts[0] + "\n", Join(texts[1..], "\n"));
      GuardAppend(texts[0], "\n");
    }
  }

  /** A body's lines, decoded one by one, are exactly the rows it was printed from. */
  lemma BodyDecodes(rows: seq<Value>)
    requires rows != [] && forall v :: v in rows ==> WellFormed(v)
    ensures var lines := Split(Body(rows), '\n');
      |lines| == |rows| && forall i :: 0 <= i < |rows| ==> Decode(lines[i]) == Some(rows[i])
  {
    var texts := RowTexts(rows);
    var guarded := seq(|texts|, i requires 0 <= i < |texts| => Guard(texts[i]));
    GuardJoin(texts);
    forall p | p in guarded ensures '\n' !in p {
      var i :| 0 <= i < |guarded| && p == guarded[i];
      assert rows[i] in rows;
      OnOneLine(rows[i]);
      GuardShape(texts[i]);
    }
    SplitJoin(guarded, '\n');
    forall i | 0 <= i < |rows| ensures Decode(guarded[i]) == Some(rows[i]) {
      assert rows[i] in rows;
      DecodeGuarded(rows[i]);
    }
  }

  lemma {:induction false} SizeFirst(rows: seq<Value>)
    requires rows != []
    ensures Size(rows) == |Stringify(rows[0])| + Size(rows[1..])
  {
    if |rows| > 1 {
      var front := rows[..|rows| - 1];
      SizeFirst(front);
      assert front[1..] == rows[1..][..|rows| - 2];
    } else {
      assert rows[..0] == [] && rows[1..] == [];
    }
  }

  lemma {:induction false} JoinedLength(rows: seq<Value>)
    requires forall v :: v in rows ==> WellFormed(v)
    ensures |Join(RowTexts(rows), "\n")| + (if rows == [] then 0 else 1) == Size(rows) + |rows|
    ensures Size(rows) >= |rows|
  {
    if rows != [] {
      assert rows[0] in rows && forall v :: v in rows[1..] ==> v in rows;
      OnOneLine(rows[0]);
      SizeFirst(rows);
      assert RowTexts(rows)[1..] == RowTexts(rows[1..]);
      JoinedLength(rows[1..]);
    }
  }

  function TotalBody(shown: seq<seq<Value>>): nat {
    if shown == [] then 0 else |Body(shown[0])| + TotalBody(shown[1..])
  }

  lemma {:induction false} BodiesBounded(shown: seq<seq<Value>>)
    requires forall rows :: rows in shown ==> forall v :: v in rows ==> WellFormed(v)
    ensures TotalBody(shown) <= 7 * TotalSize(shown)
  {
    if shown != [] {
      var rows := shown[0];
      assert rows in shown && forall r :: r in shown[1..] ==> r in shown;
      JoinedLength(rows);
      var joined := Join(RowTexts(rows), "\n");
      GuardedLength(rows);
      BodiesBounded(shown[1..]);
    }
  }

  /** Only row characters can grow: the newlines between rows stay single. */
  lemma {:induction false} GuardedLength(rows: seq<Value>)
    requires forall v :: v in rows ==> WellFormed(v)
    ensures |Body(rows)| <= 6 * Size(rows) + |rows|
  {
    if rows == [] {
    } else if |rows| == 1 {
      assert rows[..0] == [];
      GuardShape(Stringify(rows[0]));
    } else {
      assert forall v :: v in rows[1..] ==> v in rows;
      GuardedLength(rows[1..]);
      SizeFirst(rows);
      assert RowTexts(rows)[1..] == RowTexts(rows[1..]);
      var head, tail := Stringify(rows[0]), Join(RowTexts(rows[1..]), "\n");
      GuardShape(head);
      GuardShape("\n");
      GuardAppend(head + "\n", tail);
      GuardAppend(head, "\n");
    }
  }

  lemma ShownAreWellFormed(records: seq<Resource>, budget: nat)
    requires Printable(records)
    ensures forall rows :: rows in Shown(records, 0, budget) ==> forall v :: v in rows ==> WellFormed(v)
  {
    var shown := Shown(records, 0, budget);
    forall rows, v | rows in shown && v in rows ensures WellFormed(v) {
      var i :| 0 <= i < |shown| && shown[i] == rows;
      var k :| 0 <= k < |rows| && rows[k] == v;
      ShownIsMaximalFit(records, budget, i, 0);
      assert records[i] in records && records[i].data[k] == v;
    }
  }

  /** The bodies of one prompt, guarded and joined, stay within seven times the budget. */
  lemma BodiesWithinBudget(records: seq<Resource>, budget: nat)
    requires Printable(records)
    ensures TotalBody(Shown(records, 0, budget)) <= 7 * budget
  {
    ShownAreWellFormed(records, budget);
    ShownWithinBudget(records, 0, budget);
    BodiesBounded(Shown(records, 0, budget));
  }

  // ---------------------------------------------------------------------------------------------
  // One records block
  // ---------------------------------------------------------------------------------------------

  predicate OccursAt(s: string, word: string, i: int) {
    0 <= i && i + |word| <= |s| && s[i..i + |word|] == word
  }

  lemma {:induction false} JoinLacks(parts: seq<string>, sep: string, c: char)
    requires c !in sep && forall p :: p in parts ==> c !in p
    ensures c !in Join(parts, sep)
  {
    if |parts| > 0 {
      assert parts[0] in parts && forall p :: p in parts[1..] ==> p in parts;
      JoinLacks(parts[1..], sep, c);
    }
  }

  lemma FormatLacksLt(records: seq<Resource>, budget: nat)
    requires forall r :: r in records ==> '<' !in r.name
    ensures '<' !in Format(records, budget)
  {
    var shown := Shown(records, 0, budget);
    var blocks := Blocks(records, shown);
    forall b | b in blocks ensures '<' !in b {
      var i :| 0 <= i < |blocks| && b == blocks[i];
      assert records[i] in records;
      HeaderLacksLt(records[i].name, |shown[i]|, |records[i].data| - |shown[i]|);
      GuardShape(Join(RowTexts(shown[i]), "\n"));
    }
    JoinLacks(blocks, "\n\n", '<');
  }

  lemma HeaderLacksLt(name: string, shown: nat, omitted: nat)
    requires '<' !in name
    ensures '<' !in Header(name, shown, omitted)
  {
    DigitsLackLt(shown);
    DigitsLackLt(omitted);
  }

  lemma DigitsLackLt(n: nat)
    ensures '<' !in Digits(n)
  {
    assert AllDigits(Digits(n));
  }

  /** Between two tags and before them there is no '<': the tags' own are the only ones. */
  lemma LtPositions(before: string, inner: string, i: nat)
    requires '<' !in before && '<' !in inner
    requires i < |before + (OPEN + inner + CLOSE)|
    ensures var s := before + (OPEN + inner + CLOSE);
      s[i] == '<' ==> i == |before| || i == |before| + |OPEN| + |inner|
  {
    var s := before + (OPEN + inner + CLOSE);
    var a, b := |before|, |before| + |OPEN| + |inner|;
    assert i < a ==> s[i] == before[i];
    assert a <= i < a + |OPEN| ==> s[i] == OPEN[i - a];
    assert a + |OPEN| <= i < b ==> s[i] == inner[i - a - |OPEN|];
    assert b <= i ==> s[i] == CLOSE[i - b];
  }

  /** Two tags around text without '<' are the only places the tags occur. */
  lemma TagsOccurOnce(before: string, inner: string)
    requires '<' !in before && '<' !in inner
    ensures var s := before + (OPEN + inner + CLOSE);
      && (forall i :: OccursAt(s, OPEN, i) <==> i == |before|)
      && (forall i :: OccursAt(s, CLOSE, i) <==> i == |before| + |OPEN| + |inner|)
      && s[|before| + |OPEN|..|before| + |OPEN| + |inner|] == inner
  {
    var s := before + (OPEN + inner + CLOSE);
    var a, b := |before|, |before| + |OPEN| + |inner|;
    assert s[a..a + |OPEN|] == OPEN;
    assert s[b..b + |CLOSE|] == CLOSE;
    forall i | OccursAt(s, OPEN, i) ensures i == a {
      assert s[i] == s[i..i + |OPEN|][0] && s[i + 1] == s[i..i + |OPEN|][1];
      LtPositions(before, inner, i);
      assert s[b + 1] == s[b..b + |CLOSE|][1];
    }
    forall i | OccursAt(s, CLOSE, i) ensures i == b {
      assert s[i] == s[i..i + |CLOSE|][0] && s[i + 1] == s[i..i + |CLOSE|][1];
      LtPositions(before, inner, i);
      assert s[a + 1] == s[a..a + |OPEN|][1];
    }
  }

  /** The prompt opens the records block once and closes it once, whatever the question and the records say;
      what lies between is exactly the formatted records; and the question decodes to what was asked. */
  lemma PromptHasOneBlock(question: string, records: seq<Resource>)
    requires forall r :: r in records ==> '<' !in r.name
    ensures var prompt := Prompt(question, records);
      var asked := "Question: " + Guard(Quote(question)) + "\n\n";
      var inner := "\n" + Format(records, MAX_RECORDS_CHARS) + "\n";
      && (forall i :: OccursAt(prompt, OPEN, i) <==> i == |asked|)
      && (forall i :: OccursAt(prompt, CLOSE, i) <==> i == |asked| + |OPEN| + |inner|)
      && prompt[|asked| + |OPEN|..|asked| + |OPEN| + |inner|] == inner
      && Decode(Guard(Quote(question))) == Some(Str(question))
  {
    hide Guard, Quote, Format, OccursAt, Decode;
    var asked := "Question: " + Guard(Quote(question)) + "\n\n";
    var inner := "\n" + Format(records, MAX_RECORDS_CHARS) + "\n";
    GuardShape(Quote(question));
    FormatLacksLt(records, MAX_RECORDS_CHARS);
    TagsOccurOnce(asked, inner);
    DecodeGuarded(Str(question));
  }

  /** The word is found at one place only. */
  ghost predicate OccursOnce(s: string, word: string) {
    exists p :: OccursAt(s, word, p) && forall i :: OccursAt(s, word, i) ==> i == p
  }

  lemma PromptTagsOccurOnce(question: string, records: seq<Resource>)
    requires forall r :: r in records ==> '<' !in r.name
    ensures OccursOnce(Prompt(question, records), OPEN) && OccursOnce(Prompt(question, records), CLOSE)
  {
    hide Prompt, OccursAt, Guard, Quote, Decode, Format;
    PromptHasOneBlock(question, records);
    var asked := "Question: " + Guard(Quote(question)) + "\n\n";
    assert OccursAt(Prompt(question, records), OPEN, |asked|);
    assert OccursAt(Prompt(question, records), CLOSE,
                    |asked| + |OPEN| + |"\n" + Format(records, MAX_RECORDS_CHARS) + "\n"|);
  }

  lemma {:induction false} SourcesSplit(used: seq<string>, given: set<string>, i: nat)
    requires i <= |used|
    ensures Sources(used[..i], given) + Sources(used[i..], given) == Sources(used, given)
  {
    hide Sources;
    if i == 0 {
      NoSources(given);
      assert used[..0] == [] && used[0..] == used;
    } else {
      var rest := used[1..];
      SourcesSplit(rest, given, i - 1);
      assert used[..i] == [used[0]] + rest[..i - 1] && used[i..] == rest[i - 1..] && used == [used[0]] + rest;
      SourcesFirst(used[0], rest[..i - 1], given);
      SourcesFirst(used[0], rest, given);
      Assoc(Sources([used[0]], given), Sources(rest[..i - 1], given), Sources(used[i..], given));
    }
  }

  lemma NoSources(given: set<string>)
    ensures Sources([], given) == []
  {}

  lemma SourcesFirst(name: string, rest: seq<string>, given: set<string>)
    ensures Sources([name] + rest, given) == Sources([name], given) + Sources(rest, given)
  {
    assert ([name] + rest)[1..] == rest && [name][1..] == [];
  }

  /** A named source was both claimed by the model and given to it; repeats are kept; and so is the order: what is
      reported of any front of the claims comes before what is reported of the rest. */
  lemma {:induction false} SourcesAreGiven(used: seq<string>, given: set<string>)
    ensures forall r :: r in Sources(used, given) <==> r in used && r in given
    ensures forall r :: r in given ==> multiset(Sources(used, given))[r] == multiset(used)[r]
    ensures forall i :: 0 <= i <= |used| ==>
      Sources(used, given) == Sources(used[..i], given) + Sources(used[i..], given)
  {
    if used != [] {
      SourcesAreGiven(used[1..], given);
      assert used == [used[0]] + used[1..];
    }
    forall i | 0 <= i <= |used|
      ensures Sources(used, given) == Sources(used[..i], given) + Sources(used[i..], given)
    {
      SourcesSplit(used, given, i);
    }
  }
}
