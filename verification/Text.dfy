/** The JavaScript string operations the modelled code relies on. A string is a sequence of characters. */
module Text {

  datatype Option<+T> = None | Some(value: T) {
    function GetOr(default: T): T {
      if Some? then value else default
    }
  }

  lemma Assoc<T>(a: seq<T>, b: seq<T>, c: seq<T>)
    ensures a + b + c == a + (b + c)
  {}

  /** White space as String.prototype.trim and the regular-expression class \s see it. */
  predicate IsSpace(c: char) {
    || '\U{9}' <= c <= '\U{D}' || c == ' ' || c == '\U{A0}' || c == '\U{1680}'
    || '\U{2000}' <= c <= '\U{200A}' || c == '\U{2028}' || c == '\U{2029}'
    || c == '\U{202F}' || c == '\U{205F}' || c == '\U{3000}' || c == '\U{FEFF}'
  }

  predicate Blank(s: string) {
    forall i :: 0 <= i < |s| ==> IsSpace(s[i])
  }

  /** No white space at either end. */
  predicate Trimmed(s: string) {
    s == "" || (!IsSpace(s[0]) && !IsSpace(s[|s| - 1]))
  }

  predicate StartsWith(s: string, prefix: string) {
    |prefix| <= |s| && s[..|prefix|] == prefix
  }

  /** How many white-space characters a string opens with. */
  function Indent(s: string): (n: nat)
    ensures n <= |s| && Blank(s[..n])
    ensures n < |s| ==> !IsSpace(s[n])
  {
    if s != "" && IsSpace(s[0]) then 1 + Indent(s[1..]) else 0
  }

  /** Where the trailing white space of a string begins. */
  function ContentEnd(s: string): (n: nat)
    ensures n <= |s| && Blank(s[n..])
    ensures n > 0 ==> !IsSpace(s[n - 1])
  {
    if s != "" && IsSpace(s[|s| - 1]) then
      ContentEnd(s[..|s| - 1])
    else |s|
  }

  function TrimStart(s: string): string { s[Indent(s)..] }

  function TrimEnd(s: string): string { s[..ContentEnd(s)] }

  function Trim(s: string): string { TrimEnd(TrimStart(s)) }

  lemma {:induction false} IndentIs(s: string, n: nat)
    requires n <= |s| && Blank(s[..n]) && (n < |s| ==> !IsSpace(s[n]))
    ensures Indent(s) == n
  {
    if n > 0 {
      assert s[..n][0] == s[0] && s[..n][1..] == s[1..][..n - 1];
      IndentIs(s[1..], n - 1);
    }
  }

  /** Trimming drops white space at both ends and nothing else. */
  lemma TrimMeaning(s: string) returns (before: string, after: string)
    ensures s == before + Trim(s) + after
    ensures Blank(before) && Blank(after) && Trimmed(Trim(s))
  {
    var t := TrimStart(s);
    before, after := s[..Indent(s)], t[ContentEnd(t)..];
    assert t == Trim(s) + after;
    if Trim(s) != "" { assert Trim(s)[0] == s[Indent(s)]; }
  }

  lemma TrimKeepsTrimmed(s: string)
    requires Trimmed(s)
    ensures Trim(s) == s && TrimStart(s) == s
  {
    IndentIs(s, 0);
    assert s[0..] == s;
  }

  lemma TrimTwice(s: string)
    ensures Trimmed(Trim(s)) && Trim(Trim(s)) == Trim(s)
  {
    var _, _ := TrimMeaning(s);
    TrimKeepsTrimmed(Trim(s));
  }

  /** Trimming yields the empty string exactly on blank strings. */
  lemma TrimEmptyIffBlank(s: string)
    ensures Trim(s) == "" <==> Blank(s)
  {
    var before, after := TrimMeaning(s);
    if Blank(s) {
      IndentIs(s, |s|);
    }
  }

  lemma {:induction false} ContentEndIs(s: string, n: nat)
    requires n <= |s| && Blank(s[n..]) && (n > 0 ==> !IsSpace(s[n - 1]))
    ensures ContentEnd(s) == n
  {
    if n < |s| {
      assert s[n..][|s| - n - 1] == s[|s| - 1];
      assert s[..|s| - 1][n..] == s[n..][..|s| - n - 1];
      ContentEndIs(s[..|s| - 1], n);
    }
  }

  /** What trimming gives is the trimmed text between the white space, whichever way it is found. */
  lemma TrimPadded(before: string, text: string, after: string)
    requires Blank(before) && Blank(after) && Trimmed(text)
    ensures Trim(before + (text + after)) == text
    ensures text != "" ==> TrimStart(before + (text + after)) == text + after
  {
    var s := before + (text + after);
    if text == "" {
      assert s[..|s|] == s && Blank(s);
      TrimEmptyIffBlank(s);
    } else {
      assert s[..|before|] == before && s[|before|] == text[0];
      IndentIs(s, |before|);
      assert TrimStart(s) == text + after;
      assert (text + after)[|text|..] == after && (text + after)[|text| - 1] == text[|text| - 1];
      ContentEndIs(text + after, |text|);
    }
  }

  function Split(s: string, sep: char): (parts: seq<string>)
    ensures |parts| > 0
  {
    if s == "" then [""]
    else
      var rest := Split(s[1..], sep);
      if s[0] == sep then [""] + rest else [[s[0]] + rest[0]] + rest[1..]
  }

  function Join(parts: seq<string>, sep: string): string {
    if |parts| == 0 then ""
    else if |parts| == 1 then parts[0]
    else parts[0] + sep + Join(parts[1..], sep)
  }

  /** Splitting at a separator the first piece does not contain. */
  lemma {:induction false} SplitAt(head: string, sep: char, rest: string)
    requires sep !in head
    ensures Split(head + [sep] + rest, sep) == [head] + Split(rest, sep)
  {
    if head == "" {
      assert (head + [sep] + rest)[1..] == rest;
    } else {
      assert (head + [sep] + rest)[1..] == head[1..] + [sep] + rest;
      SplitAt(head[1..], sep, rest);
      assert head == [head[0]] + head[1..];
    }
  }

  lemma {:induction false} SplitWhole(s: string, sep: char)
    requires sep !in s
    ensures Split(s, sep) == [s]
  {
    if s != "" {
      SplitWhole(s[1..], sep);
      assert s == [s[0]] + s[1..];
    }
  }

  lemma {:induction false} SplitJoin(parts: seq<string>, sep: char)
    requires |parts| > 0
    requires forall p :: p in parts ==> sep !in p
    ensures Split(Join(parts, [sep]), sep) == parts
  {
    if |parts| == 1 {
      SplitWhole(parts[0], sep);
    } else {
      SplitJoin(parts[1..], sep);
      SplitAt(parts[0], sep, Join(parts[1..], [sep]));
    }
  }

  lemma SplitFirst(s: string, sep: char)
    requires s != ""
    ensures var rest := Split(s[1..], sep);
      Split(s, sep) == if s[0] == sep then [""] + rest else [[s[0]] + rest[0]] + rest[1..]
  {}

  lemma JoinFirst(part: string, parts: seq<string>, sep: string)
    ensures Join([part] + parts, sep) == if parts == [] then part else part + sep + Join(parts, sep)
  {
    assert ([part] + parts)[1..] == parts;
  }

  lemma {:induction false} JoinSplit(s: string, sep: char)
    ensures Join(Split(s, sep), [sep]) == s
    ensures forall p :: p in Split(s, sep) ==> sep !in p
  {
    if s != "" {
      hide Join, Split;
      JoinSplit(s[1..], sep);
      SplitFirst(s, sep);
      JoinSplitStep(s[0], Split(s[1..], sep), sep);
      assert s == [s[0]] + s[1..];
    }
  }

  lemma JoinSplitStep(c: char, rest: seq<string>, sep: char)
    requires rest != []
    ensures Join([""] + rest, [sep]) == [sep] + Join(rest, [sep])
    ensures Join([[c] + rest[0]] + rest[1..], [sep]) == [c] + Join(rest, [sep])
  {
    hide Join;
    JoinFirst("", rest, [sep]);
    assert rest == [rest[0]] + rest[1..];
    JoinFirst(rest[0], rest[1..], [sep]);
    JoinFirst([c] + rest[0], rest[1..], [sep]);
    if rest[1..] != [] {
      assert [c] + (rest[0] + [sep] + Join(rest[1..], [sep])) == [c] + rest[0] + [sep] + Join(rest[1..], [sep]);
    }
  }

  /** The parts of a joined list, all but the last, then the last. */
  lemma {:induction false} JoinAppend(parts: seq<string>, last: string, sep: string)
    requires |parts| > 0
    ensures Join(parts + [last], sep) == Join(parts, sep) + sep + last
  {
    if |parts| == 1 {
      assert (parts + [last])[1..] == [last];
    } else {
      JoinAppend(parts[1..], last, sep);
      assert (parts + [last])[1..] == parts[1..] + [last];
    }
  }
}
