/** Inline rendering of apps/web/components/help/markdown.tsx: bold, code, links and italics in one pass. */
module MarkdownInline {
  import opened Text

  datatype Node =
    | Plain(text: string)
    | Strong(children: seq<Node>)
    | CodeSpan(text: string)
    | Link(href: string, external: bool, children: seq<Node>)
    | Em(text: string)

  datatype Kind = Bold | Code | Anchor | Italic

  // ---------------------------------------------------------------------------------------------
  // The four alternatives of the pattern, each tried at the start of a string
  // ---------------------------------------------------------------------------------------------

  /** The index of the first of the given characters, or the length. */
  function Until(s: string, stops: string): (n: nat)
    ensures n <= |s|
    ensures forall i :: 0 <= i < n ==> s[i] !in stops
    ensures n < |s| ==> s[n] in stops
  {
    if s == "" || s[0] in stops then 0 else 1 + Until(s[1..], stops)
  }

  function BoldHere(s: string): (n: nat)
    ensures n <= |s|
  {
    if !StartsWith(s, "**") then 0
    else
      var k := Until(s[2..], "*");
      if k > 0 && StartsWith(s[k + 2..], "**") then k + 4 else 0
  }

  function CodeHere(s: string): (n: nat)
    ensures n <= |s|
  {
    if s == "" || s[0] != '`' then 0
    else
      var k := Until(s[1..], "`");
      if k > 0 && k + 1 < |s| then k + 2 else 0
  }

  function AnchorHere(s: string): (n: nat)
    ensures n <= |s|
  {
    if s == "" || s[0] != '[' then 0
    else
      var k := Until(s[1..], "]");
      if k > 0 && StartsWith(s[k + 1..], "](") then
        var m := Until(s[k + 3..], ")");
        if m > 0 && k + 3 + m < |s| then k + m + 4 else 0
      else 0
  }

  function ItalicHere(s: string): (n: nat)
    ensures n <= |s|
  {
    if s == "" || s[0] != '*' then 0
    else
      var k := Until(s[1..], "*\n");
      if k > 0 && k + 1 < |s| && s[k + 1] == '*' then k + 2 else 0
  }

  /** The first alternative that matches at the start, and the length of its token. */
  function MatchHere(s: string): (r: Option<(Kind, nat)>)
    ensures r.Some? ==> 3 <= r.value.1 <= |s|
  {
    if BoldHere(s) > 0 then Some((Bold, BoldHere(s)))
    else if CodeHere(s) > 0 then Some((Code, CodeHere(s)))
    else if AnchorHere(s) > 0 then Some((Anchor, AnchorHere(s)))
    else if ItalicHere(s) > 0 then Some((Italic, ItalicHere(s)))
    else None
  }

  /** Where the leftmost match begins and how long its token is. */
  function Search(s: string): (r: Option<(nat, nat)>)
    ensures r.Some? ==> var (at, n) := r.value;
      at + n <= |s| && n >= 3 && MatchHere(s[at..]).Some? && MatchHere(s[at..]).value.1 == n
    ensures forall j :: 0 <= j < (if r.Some? then r.value.0 else |s|) ==> MatchHere(s[j..]).None?
  {
    if s == "" then None
    else if MatchHere(s).Some? then
      assert s[0..] == s;
      Some((0, MatchHere(s).value.1))
    else
      assert forall j :: 1 <= j <= |s| ==> s[1..][j - 1..] == s[j..];
      assert s[0..] == s;
      match Search(s[1..])
      case Some((at, n)) => Some((at + 1, n))
      case None => None
  }

  /** /^\[([^\]]+)\]\(([^)]+)\)$/ applied to a token. */
  function LinkParts(token: string): (r: Option<(string, string)>)
    ensures r.Some? ==> |r.value.0| < |token|
  {
    if token == "" || token[0] != '[' then None
    else
      var k := Until(token[1..], "]");
      if k > 0 && StartsWith(token[k + 1..], "](") then
        var m := Until(token[k + 3..], ")");
        if m > 0 && k + m + 4 == |token| then Some((token[1..k + 1], token[k + 3..k + 3 + m])) else None
      else None
  }

  // ---------------------------------------------------------------------------------------------
  // Rendering
  // ---------------------------------------------------------------------------------------------

  predicate IsExternal(href: string) { !(StartsWith(href, "/") || StartsWith(href, "#")) }

  /** The node a token renders to, told apart by how the token starts. */
  function NodeOf(token: string): Node
    requires |token| >= 3
    decreases |token|, 0
  {
    if StartsWith(token, "**") then
      if |token| >= 4 then Strong(Inline(token[2..|token| - 2])) else Strong([])
    else if StartsWith(token, "`") then CodeSpan(token[1..|token| - 1])
    else if StartsWith(token, "[") then
      match LinkParts(token)
      case Some((caption, href)) => Link(href, IsExternal(href), Inline(caption))
      case None => Link("", true, [])
    else Em(token[1..|token| - 1])
  }

  function PlainIf(s: string): seq<Node> { if s == "" then [] else [Plain(s)] }

  function Inline(s: string): seq<Node>
    decreases |s|, 1
  {
    match Search(s)
    case None => PlainIf(s)
    case Some((at, n)) => PlainIf(s[..at]) + ([NodeOf(s[at..at + n])] + Inline(s[at + n..]))
  }

  /** The rendering loop: a copied slice up to each match, then the match's node. */
  method RenderInline(text: string) returns (nodes: seq<Node>)
    ensures nodes == Inline(text)
    decreases |text|, 1
  {
    hide Search, MatchHere, NodeOf, Inline;
    nodes := [];
    var lastIndex := 0;
    assert text[0..] == text && [] + Inline(text) == Inline(text);
    while true
      invariant 0 <= lastIndex <= |text|
      invariant nodes + Inline(text[lastIndex..]) == Inline(text)
      decreases |text| - lastIndex
    {
      var found := Search(text[lastIndex..]);
      if found.None? { break; }
      var (at, n) := found.value;
      var index := lastIndex + at;
      var token := text[index..index + n];
      ghost var before := nodes;
      LoopStep(text, lastIndex, at, n);
      if index > lastIndex {
        nodes := nodes + [Plain(text[lastIndex..index])];
      }
      assert nodes == before + PlainIf(text[lastIndex..index]);
      var node := RenderToken(token);
      Regroup(before, PlainIf(text[lastIndex..index]), node, Inline(text[index + n..]));
      nodes := nodes + [node];
      lastIndex := index + n;
    }
    LoopEnd(text[lastIndex..]);
    if lastIndex < |text| {
      nodes := nodes + [Plain(text[lastIndex..])];
    }
  }

  method RenderToken(token: string) returns (node: Node)
    requires |token| >= 3
    ensures node == NodeOf(token)
    decreases |token|, 0
  {
    hide LinkParts, IsExternal, StartsWith, Inline;
    if StartsWith(token, "**") {
      var children: seq<Node> := [];
      if |token| >= 4 { children := RenderInline(token[2..|token| - 2]); }
      node := Strong(children);
    } else if StartsWith(token, "`") {
      node := CodeSpan(token[1..|token| - 1]);
    } else if StartsWith(token, "[") {
      var parts := LinkParts(token);
      if parts.Some? {
        var (caption, href) := parts.value;
        var children := RenderInline(caption);
        node := Link(href, IsExternal(href), children);
      } else {
        node := Link("", true, []);
      }
    } else {
      node := Em(token[1..|token| - 1]);
    }
  }

  lemma Regroup(before: seq<Node>, plain: seq<Node>, node: Node, rest: seq<Node>)
    ensures before + plain + [node] + rest == before + (plain + ([node] + rest))
  {}

  lemma LoopStep(text: string, lastIndex: nat, at: nat, n: nat)
    requires lastIndex <= |text| && Search(text[lastIndex..]) == Some((at, n))
    ensures lastIndex + at + n <= |text| && n >= 3
    ensures Inline(text[lastIndex..]) == PlainIf(text[lastIndex..lastIndex + at])
         + ([NodeOf(text[lastIndex + at..lastIndex + at + n])] + Inline(text[lastIndex + at + n..]))
  {
    hide MatchHere, NodeOf;
    var s := text[lastIndex..];
    assert s[..at] == text[lastIndex..lastIndex + at];
    assert s[at..at + n] == text[lastIndex + at..lastIndex + at + n];
    assert s[at + n..] == text[lastIndex + at + n..];
  }

  lemma LoopEnd(s: string)
    requires Search(s).None?
    ensures Inline(s) == PlainIf(s)
  {}

  // ---------------------------------------------------------------------------------------------
  // Tokens are what their first characters say
  // ---------------------------------------------------------------------------------------------

  /** The startsWith tests of the rendering loop. */
  function Classify(token: string): Kind {
    if StartsWith(token, "**") then Bold
    else if StartsWith(token, "`") then Code
    else if StartsWith(token, "[") then Anchor
    else Italic
  }

  ghost predicate BoldToken(token: string, inner: string) {
    token == "**" + (inner + "**") && inner != "" && '*' !in inner
  }

  ghost predicate AnchorToken(token: string, caption: string, href: string) {
    && token == "[" + (caption + ("](" + (href + ")")))
    && caption != "" && href != "" && ']' !in caption && ')' !in href
  }

  lemma BoldShape(s: string)
    requires BoldHere(s) > 0
    ensures BoldHere(s) >= 5 && BoldToken(s[..BoldHere(s)], s[2..BoldHere(s) - 2])
    ensures Classify(s[..BoldHere(s)]) == Bold
  {
    var n := BoldHere(s);
    var inner := s[2..n - 2];
    assert s[..2] == "**" && s[n - 2..][..2] == "**";
    forall c | c in inner ensures c != '*' {
      var i :| 0 <= i < |inner| && inner[i] == c;
      assert s[2..][i] == c;
    }
    assert s[..n] == s[..2] + (inner + s[n - 2..][..2]);
    assert s[..n][..2] == "**";
  }

  lemma CodeShape(s: string)
    requires CodeHere(s) > 0
    ensures CodeHere(s) >= 3 && s[..CodeHere(s)] == "`" + (s[1..CodeHere(s) - 1] + "`")
    ensures Classify(s[..CodeHere(s)]) == Code
  {
    var n := CodeHere(s);
    assert s[1..][n - 2] == s[n - 1];
    assert s[..n] == "`" + (s[1..n - 1] + "`");
    assert s[..n][..1] == "`" && s[..n][0] == '`';
  }

  lemma ItalicShape(s: string)
    requires BoldHere(s) == 0 && ItalicHere(s) > 0
    ensures ItalicHere(s) >= 3 && s[..ItalicHere(s)] == "*" + (s[1..ItalicHere(s) - 1] + "*")
    ensures Classify(s[..ItalicHere(s)]) == Italic
  {
    var n := ItalicHere(s);
    assert s[..n] == "*" + (s[1..n - 1] + "*");
    assert s[1..][0] != '*' && s[1..][0] == s[1];
    assert s[..n][0] == '*' && s[..n][1] != '*';
  }

  lemma AnchorShape(s: string) returns (caption: string, href: string)
    requires AnchorHere(s) > 0
    ensures AnchorToken(s[..AnchorHere(s)], caption, href)
    ensures AnchorHere(s) >= 3 && Classify(s[..AnchorHere(s)]) == Anchor
  {
    var n := AnchorHere(s);
    var k := Until(s[1..], "]");
    var m := Until(s[k + 3..], ")");
    caption, href := s[1..k + 1], s[k + 3..k + 3 + m];
    forall c | c in caption ensures c != ']' {
      var i :| 0 <= i < |caption| && caption[i] == c;
      assert s[1..][i] == c;
    }
    forall c | c in href ensures c != ')' {
      var i :| 0 <= i < |href| && href[i] == c;
      assert s[k + 3..][i] == c;
    }
    assert s[k + 1..][..2] == "](" && s[k + 3..][m] == ')';
    assert s[..n] == "[" + (caption + (s[k + 1..][..2] + (href + ")")));
    assert s[..n][..1] == "[" && s[..n][0] == '[';
  }

  lemma {:induction false} UntilIs(head: string, rest: string, stop: char)
    requires stop !in head && rest != "" && rest[0] == stop
    ensures Until(head + rest, [stop]) == |head|
  {
    if head == "" {
      assert head + rest == rest;
    } else {
      assert (head + rest)[1..] == head[1..] + rest;
      UntilIs(head[1..], rest, stop);
    }
  }

  /** The link pattern applied again to a link token finds its label and address. */
  lemma LinkPartsOf(token: string, caption: string, href: string)
    requires AnchorToken(token, caption, href)
    ensures LinkParts(token) == Some((caption, href))
  {
    hide Until;
    var rest := "](" + (href + ")");
    assert token[1..] == caption + rest;
    UntilIs(caption, rest, ']');
    var k := |caption|;
    assert token[k + 1..] == rest && rest[..2] == "](";
    assert token[k + 3..] == href + ")";
    UntilIs(href, ")", ')');
    assert token[1..k + 1] == caption && token[k + 3..k + 3 + |href|] == href;
  }

  /** The kind told from a token's first characters is the alternative that matched it. */
  lemma ClassificationAgrees(s: string)
    requires MatchHere(s).Some?
    ensures Classify(s[..MatchHere(s).value.1]) == MatchHere(s).value.0
    ensures MatchHere(s).value.0 == Anchor ==> LinkParts(s[..MatchHere(s).value.1]).Some?
  {
    hide BoldHere, CodeHere, AnchorHere, ItalicHere, LinkParts, Classify;
    if BoldHere(s) > 0 {
      BoldShape(s);
    } else if CodeHere(s) > 0 {
      CodeShape(s);
    } else if AnchorHere(s) > 0 {
      var caption, href := AnchorShape(s);
      LinkPartsOf(s[..AnchorHere(s)], caption, href);
    } else {
      ItalicShape(s);
    }
  }

  // ---------------------------------------------------------------------------------------------
  // Nothing is lost
  // ---------------------------------------------------------------------------------------------

  /** The text a rendering stands for, marks included. */
  function Source(nodes: seq<Node>): string
    decreases nodes
  {
    if nodes == [] then "" else SourceOf(nodes[0]) + Source(nodes[1..])
  }

  function SourceOf(node: Node): string
    decreases node
  {
    match node
    case Plain(text) => text
    case Strong(children) => "**" + (Source(children) + "**")
    case CodeSpan(text) => "`" + (text + "`")
    case Link(href, _, children) => "[" + (Source(children) + ("](" + (href + ")")))
    case Em(text) => "*" + (text + "*")
  }

  lemma {:induction false} SourceAppend(a: seq<Node>, b: seq<Node>)
    ensures Source(a + b) == Source(a) + Source(b)
  {
    hide SourceOf;
    if a == [] {
      assert a + b == b;
    } else {
      assert (a + b)[1..] == a[1..] + b;
      SourceAppend(a[1..], b);
      Assoc(SourceOf(a[0]), Source(a[1..]), Source(b));
    }
  }

  lemma SourceSingle(node: Node)
    ensures Source([node]) == SourceOf(node)
  {
    hide SourceOf;
    assert [node][1..] == [] && SourceOf(node) + "" == SourceOf(node);
  }

  lemma PlainSource(s: string)
    ensures Source(PlainIf(s)) == s
  {
    if s != "" { SourceSingle(Plain(s)); }
  }

  /** Every text is kept whole: the plain slices and the tokens, put together again, are the text. */
  lemma {:induction false} InlineKeepsText(s: string)
    ensures Source(Inline(s)) == s
    decreases |s|, 1
  {
    hide Search, NodeOf, Source, PlainIf, MatchHere;
    match Search(s)
    case None => PlainSource(s);
    case Some((at, n)) =>
      var token, rest := s[at..at + n], s[at + n..];
      assert token == s[at..][..n];
      TokenKeepsText(s[at..]);
      InlineKeepsText(rest);
      PlainSource(s[..at]);
      SourceSingle(NodeOf(token));
      SourceAppend(PlainIf(s[..at]), [NodeOf(token)] + Inline(rest));
      SourceAppend([NodeOf(token)], Inline(rest));
      assert s == s[..at] + (token + rest);
  }

  lemma {:induction false} TokenKeepsText(s: string)
    requires MatchHere(s).Some?
    ensures var token := s[..MatchHere(s).value.1]; SourceOf(NodeOf(token)) == token
    decreases |s|, 0
  {
    hide BoldHere, CodeHere, AnchorHere, ItalicHere, LinkParts, StartsWith, Source, Inline;
    if BoldHere(s) > 0 {
      BoldShape(s);
      InlineKeepsText(s[2..BoldHere(s) - 2]);
      assert s[..BoldHere(s)][2..BoldHere(s) - 2] == s[2..BoldHere(s) - 2];
    } else if CodeHere(s) > 0 {
      CodeShape(s);
      assert s[..CodeHere(s)][1..CodeHere(s) - 1] == s[1..CodeHere(s) - 1];
    } else if AnchorHere(s) > 0 {
      var caption, href := AnchorShape(s);
      LinkPartsOf(s[..AnchorHere(s)], caption, href);
      InlineKeepsText(caption);
    } else {
      ItalicShape(s);
      assert s[..ItalicHere(s)][1..ItalicHere(s) - 1] == s[1..ItalicHere(s) - 1];
    }
  }

  // ---------------------------------------------------------------------------------------------
  // Every token is found
  // ---------------------------------------------------------------------------------------------

  ghost predicate CodeToken(token: string, inner: string) {
    token == "`" + (inner + "`") && inner != "" && '`' !in inner
  }

  ghost predicate ItalicToken(token: string, inner: string) {
    token == "*" + (inner + "*") && inner != "" && '*' !in inner && '\n' !in inner
  }

  /** What the pattern's alternatives describe. */
  ghost predicate IsToken(kind: Kind, token: string) {
    match kind
    case Bold => exists inner :: BoldToken(token, inner)
    case Code => exists inner :: CodeToken(token, inner)
    case Anchor => exists caption, href :: AnchorToken(token, caption, href)
    case Italic => exists inner :: ItalicToken(token, inner)
  }

  ghost predicate AToken(token: string) { exists kind :: IsToken(kind, token) }

  lemma {:induction false} UntilIsAny(head: string, rest: string, stops: string)
    requires (forall c :: c in head ==> c !in stops) && rest != "" && rest[0] in stops
    ensures Until(head + rest, stops) == |head|
  {
    if head == "" {
      assert head + rest == rest;
    } else {
      assert (head + rest)[1..] == head[1..] + rest;
      UntilIsAny(head[1..], rest, stops);
    }
  }

  lemma BoldMatches(token: string, inner: string, rest: string)
    requires BoldToken(token, inner)
    ensures BoldHere(token + rest) == |token|
  {
    hide Until;
    var s := token + rest;
    assert s[..2] == "**" && s[2..] == inner + ("**" + rest);
    UntilIsAny(inner, "**" + rest, "*");
    assert s[|inner| + 2..][..2] == "**";
  }

  lemma CodeMatches(token: string, inner: string, rest: string)
    requires CodeToken(token, inner)
    ensures BoldHere(token + rest) == 0 && CodeHere(token + rest) == |token|
  {
    hide Until;
    var s := token + rest;
    assert s[0] == '`' && s[1..] == inner + ("`" + rest);
    assert s[..2][0] == '`';
    UntilIsAny(inner, "`" + rest, "`");
  }

  lemma AnchorMatches(token: string, caption: string, href: string, rest: string)
    requires AnchorToken(token, caption, href)
    ensures BoldHere(token + rest) == 0 && CodeHere(token + rest) == 0 && AnchorHere(token + rest) == |token|
  {
    hide Until;
    var s, k := token + rest, |caption|;
    assert s[0] == '[' && s[..2][0] == '[' && s[1..] == caption + ("](" + (href + (")" + rest)));
    UntilIsAny(caption, "](" + (href + (")" + rest)), "]");
    assert s[k + 1..][..2] == "](" && s[k + 3..] == href + (")" + rest);
    UntilIsAny(href, ")" + rest, ")");
  }

  lemma ItalicMatches(token: string, inner: string, rest: string)
    requires ItalicToken(token, inner)
    ensures var s := token + rest;
      BoldHere(s) == 0 && CodeHere(s) == 0 && AnchorHere(s) == 0 && ItalicHere(s) == |token|
  {
    hide Until;
    var s := token + rest;
    assert s[0] == '*' && s[1] == inner[0] && s[1..] == inner + ("*" + rest);
    assert s[..2][1] != '*';
    UntilIsAny(inner, "*" + rest, "*\n");
  }

  lemma MatchedIsToken(s: string)
    requires MatchHere(s).Some?
    ensures IsToken(MatchHere(s).value.0, s[..MatchHere(s).value.1])
  {
    hide BoldHere, CodeHere, AnchorHere, ItalicHere, Classify;
    if BoldHere(s) > 0 {
      BoldShape(s);
    } else if CodeHere(s) > 0 {
      CodeShape(s);
      CodeInner(s);
      assert CodeToken(s[..CodeHere(s)], s[1..CodeHere(s) - 1]);
    } else if AnchorHere(s) > 0 {
      var caption, href := AnchorShape(s);
    } else {
      ItalicShape(s);
      ItalicInner(s);
      assert ItalicToken(s[..ItalicHere(s)], s[1..ItalicHere(s) - 1]);
    }
  }

  lemma CodeInner(s: string)
    requires CodeHere(s) > 0
    ensures '`' !in s[1..CodeHere(s) - 1] && s[1..CodeHere(s) - 1] != ""
  {
    var inner := s[1..CodeHere(s) - 1];
    assert |inner| == Until(s[1..], "`");
    forall c | c in inner ensures c != '`' {
      var i :| 0 <= i < |inner| && inner[i] == c;
      assert s[1..][i] == c;
    }
  }

  lemma ItalicInner(s: string)
    requires ItalicHere(s) > 0
    ensures var inner := s[1..ItalicHere(s) - 1]; inner != "" && '*' !in inner && '\n' !in inner
  {
    var inner := s[1..ItalicHere(s) - 1];
    forall c | c in inner ensures c != '*' && c != '\n' {
      var i :| 0 <= i < |inner| && inner[i] == c;
      assert s[1..][i] == c && c !in "*\n";
    }
  }

  /** The pattern matches at the start of a string, with that alternative and that length, if and only if the string
      begins with such a token; whatever follows makes no difference. */
  lemma MatchIff(s: string, kind: Kind, n: nat)
    requires n <= |s|
    ensures MatchHere(s) == Some((kind, n)) <==> IsToken(kind, s[..n])
  {
    hide MatchHere;
    if IsToken(kind, s[..n]) {
      TokenMatches(s[..n], kind, s[n..]);
      assert s[..n] + s[n..] == s;
    }
    if MatchHere(s) == Some((kind, n)) {
      MatchedIsToken(s);
    }
  }

  lemma TokenMatches(token: string, kind: Kind, rest: string)
    requires IsToken(kind, token)
    ensures MatchHere(token + rest) == Some((kind, |token|))
  {
    hide BoldHere, CodeHere, AnchorHere, ItalicHere;
    match kind
    case Bold =>
      var inner :| BoldToken(token, inner);
      BoldMatches(token, inner, rest);
    case Code =>
      var inner :| CodeToken(token, inner);
      CodeMatches(token, inner, rest);
    case Anchor =>
      var caption, href :| AnchorToken(token, caption, href);
      AnchorMatches(token, caption, href, rest);
    case Italic =>
      var inner :| ItalicToken(token, inner);
      ItalicMatches(token, inner, rest);
  }

  /** Text in which nothing is found holds no token anywhere; and what is found is a token that no token begins
      before. */
  lemma SearchIsComplete(s: string)
    ensures Search(s).None? <==> forall i, j :: 0 <= i <= j <= |s| ==> !AToken(s[i..j])
    ensures Search(s).Some? ==>
      && AToken(s[Search(s).value.0..Search(s).value.0 + Search(s).value.1])
      && forall i, j :: 0 <= i < Search(s).value.0 && i <= j <= |s| ==> !AToken(s[i..j])
  {
    hide IsToken, MatchHere, Search;
    forall i, j | 0 <= i <= j <= |s| && MatchHere(s[i..]).None? ensures !AToken(s[i..j]) {
      assert s[i..][..j - i] == s[i..j];
      forall kind ensures !IsToken(kind, s[i..j]) {
        MatchIff(s[i..], kind, j - i);
      }
    }
    if Search(s).Some? {
      var (at, n) := Search(s).value;
      MatchedIsToken(s[at..]);
      assert s[at..][..n] == s[at..at + n];
    }
  }

  // ---------------------------------------------------------------------------------------------
  // What is written is rendered
  // ---------------------------------------------------------------------------------------------

  /** Nodes an author can write down: plain text without the characters tokens begin with, and token contents without
      the characters that end them. A link leaves the site exactly when its address begins with neither / nor #. */
  ghost predicate Writable(node: Node)
    decreases node
  {
    match node
    case Plain(text) => text != "" && '*' !in text && '`' !in text && '[' !in text
    case Strong(children) => AllWritable(children) && Source(children) != "" && '*' !in Source(children)
    case CodeSpan(text) => text != "" && '`' !in text
    case Link(href, external, children) =>
      && AllWritable(children) && Source(children) != "" && ']' !in Source(children)
      && href != "" && ')' !in href && (external <==> href[0] != '/' && href[0] != '#')
    case Em(text) => text != "" && '*' !in text && '\n' !in text
  }

  ghost predicate AllWritable(nodes: seq<Node>)
    decreases nodes
  {
    nodes != [] ==>
      && Writable(nodes[0]) && AllWritable(nodes[1..])
      && (|nodes| > 1 && nodes[0].Plain? ==> !nodes[1].Plain?)
  }

  /** Writing nodes down and rendering the text gives the nodes. */
  lemma {:induction false} WrittenIsRendered(nodes: seq<Node>)
    requires AllWritable(nodes)
    ensures Inline(Source(nodes)) == nodes
    decreases nodes, 1
  {
    hide Search, MatchHere, NodeOf, Inline, Source, SourceOf, Writable;
    if nodes == [] {
      NothingRendered();
    } else {
      var rest := nodes[1..];
      assert nodes == [nodes[0]] + rest;
      SourceFirst(nodes);
      WrittenIsRendered(rest);
      if nodes[0].Plain? {
        PlainIsWritten(nodes[0]);
        if rest == [] {
          NothingRendered();
          PlainRendered(nodes[0].text);
        } else {
          SourceFirst(rest);
          NodeIsToken(rest[0]);
          NodeRendered(nodes[0].text, rest[0], Source(rest[1..]));
          assert rest == [rest[0]] + rest[1..];
          WrittenIsRendered(rest[1..]);
        }
      } else {
        NodeRendered("", nodes[0], Source(rest));
        assert "" + (SourceOf(nodes[0]) + Source(rest)) == SourceOf(nodes[0]) + Source(rest);
        assert [] + ([nodes[0]] + rest) == nodes;
      }
    }
  }

  lemma NothingRendered()
    ensures Source([]) == "" && Inline("") == []
  {}

  lemma SourceFirst(nodes: seq<Node>)
    requires nodes != []
    ensures Source(nodes) == SourceOf(nodes[0]) + Source(nodes[1..])
  {}

  /** Text without the characters tokens begin with. */
  ghost predicate NoOpener(text: string) { '*' !in text && '`' !in text && '[' !in text }

  lemma PlainIsWritten(node: Node)
    requires node.Plain? && Writable(node)
    ensures node.text != "" && NoOpener(node.text) && SourceOf(node) == node.text
  {}

  lemma NoMatchAt(s: string)
    requires s == "" || (s[0] != '*' && s[0] != '`' && s[0] != '[')
    ensures MatchHere(s).None?
  {
    assert |s| >= 2 ==> s[..2][0] == s[0];
  }

  lemma {:induction false} SearchSkips(text: string, rest: string)
    requires NoOpener(text)
    ensures Search(text + rest) == match Search(rest)
      case None => None
      case Some((at, n)) => Some((|text| + at, n))
  {
    hide MatchHere;
    if text == "" {
      assert text + rest == rest;
    } else {
      NoMatchAt(text + rest);
      assert (text + rest)[1..] == text[1..] + rest;
      SearchSkips(text[1..], rest);
    }
  }

  lemma PlainRendered(text: string)
    requires text != "" && NoOpener(text)
    ensures Inline(text + "") == [Plain(text)]
  {
    hide MatchHere;
    SearchSkips(text, "");
    assert text + "" == text;
  }

  lemma NodeIsToken(node: Node)
    requires Writable(node) && !node.Plain?
    ensures AToken(SourceOf(node)) && SourceOf(node) != ""
  {
    hide Source, AllWritable;
    match node
    case Strong(children) => assert BoldToken(SourceOf(node), Source(children)) && IsToken(Bold, SourceOf(node));
    case CodeSpan(text) => assert CodeToken(SourceOf(node), text) && IsToken(Code, SourceOf(node));
    case Link(href, _, children) =>
      assert AnchorToken(SourceOf(node), Source(children), href) && IsToken(Anchor, SourceOf(node));
    case Em(text) => assert ItalicToken(SourceOf(node), text) && IsToken(Italic, SourceOf(node));
  }

  /** A token after plain text is rendered as its node, and what follows it on its own. */
  lemma {:induction false} NodeRendered(text: string, node: Node, rest: string)
    requires NoOpener(text) && Writable(node) && !node.Plain?
    ensures Inline(text + (SourceOf(node) + rest)) == PlainIf(text) + ([node] + Inline(rest))
    decreases node, 2
  {
    hide MatchHere, NodeOf, Source, SourceOf, Writable, IsToken;
    var token := SourceOf(node);
    NodeIsToken(node);
    var kind :| IsToken(kind, token);
    TokenMatches(token, kind, rest);
    NodeOfSource(node);
    var s := text + (token + rest);
    assert Search(token + rest) == Some((0, |token|));
    SearchSkips(text, token + rest);
    assert s[..|text|] == text && s[|text|..|text| + |token|] == token && s[|text| + |token|..] == rest;
  }

  lemma {:induction false} NodeOfSource(node: Node)
    requires Writable(node) && !node.Plain?
    ensures |SourceOf(node)| >= 3 && NodeOf(SourceOf(node)) == node
    decreases node, 1
  {
    hide Source, Inline, LinkParts, IsExternal, AllWritable;
    var token := SourceOf(node);
    match node
    case Strong(children) =>
      WrittenIsRendered(children);
      assert token[..2] == "**" && token[2..|token| - 2] == Source(children);
    case CodeSpan(text) =>
      assert token[0] == '`' && token[..1] == "`" && token[..2][0] == '`' && token[1..|token| - 1] == text;
    case Link(href, external, children) =>
      WrittenIsRendered(children);
      assert token[0] == '[' && token[..1] == "[" && token[..2][0] == '[';
      LinkPartsOf(token, Source(children), href);
      ExternalIff(href);
    case Em(text) =>
      assert token[0] == '*' && token[1] == text[0] && token[..2][1] != '*' && token[..1][0] == '*';
      assert token[1..|token| - 1] == text;
  }

  lemma ExternalIff(href: string)
    requires href != ""
    ensures IsExternal(href) <==> href[0] != '/' && href[0] != '#'
  {
    assert href[..1] == [href[0]];
  }

  // ---------------------------------------------------------------------------------------------
  // Nesting
  // ---------------------------------------------------------------------------------------------

  function Max(a: nat, b: nat): nat { if a < b then b else a }

  function Depth(nodes: seq<Node>): nat
    decreases nodes
  {
    if nodes == [] then 0 else Max(DepthOf(nodes[0]), Depth(nodes[1..]))
  }

  function DepthOf(node: Node): nat
    decreases node
  {
    match node
    case Plain(_) => 0
    case CodeSpan(_) => 1
    case Em(_) => 1
    case Strong(children) => 1 + Depth(children)
    case Link(_, _, children) => 1 + Depth(children)
  }

  lemma {:induction false} DepthAppend(a: seq<Node>, b: seq<Node>)
    ensures Depth(a + b) == Max(Depth(a), Depth(b))
  {
    hide DepthOf;
    if a == [] {
      assert a + b == b;
    } else {
      assert (a + b)[1..] == a[1..] + b;
      DepthAppend(a[1..], b);
    }
  }

  function Has(s: string, c: char): nat { if c in s then 1 else 0 }

  /** One level for bold when the text holds a star, one for links when it holds a closing bracket, one more. */
  function Bound(s: string): nat { 1 + Has(s, '*') + Has(s, ']') }

  lemma {:induction false} InlineDepth(s: string)
    ensures Depth(Inline(s)) <= Bound(s)
    decreases |s|, 1
  {
    hide Search, NodeOf, Depth, MatchHere;
    assert Depth([]) == 0 by { NoDepth(); }
    match Search(s)
    case None =>
      PlainDepth(s);
    case Some((at, n)) =>
      var token, rest := s[at..at + n], s[at + n..];
      assert token == s[at..][..n];
      PlainDepth(s[..at]);
      TokenDepth(s[at..]);
      SliceBound(s, at, at + n);
      SliceBound(s, at + n, |s|);
      InlineDepth(rest);
      DepthAppend(PlainIf(s[..at]), [NodeOf(token)] + Inline(rest));
      DepthAppend([NodeOf(token)], Inline(rest));
      SingleDepth(NodeOf(token));
  }

  lemma NoDepth()
    ensures Depth([]) == 0
  {}

  lemma SingleDepth(node: Node)
    ensures Depth([node]) == DepthOf(node)
  {
    hide DepthOf;
    assert [node][1..] == [];
  }

  lemma PlainDepth(s: string)
    ensures Depth(PlainIf(s)) == 0
  {
    if s != "" { SingleDepth(Plain(s)); }
  }

  lemma SliceBound(s: string, i: nat, j: nat)
    requires i <= j <= |s|
    ensures Bound(s[i..j]) <= Bound(s)
  {
    assert forall c :: c in s[i..j] ==> c in s;
  }

  lemma {:induction false} TokenDepth(s: string)
    requires MatchHere(s).Some?
    ensures var token := s[..MatchHere(s).value.1]; DepthOf(NodeOf(token)) <= Bound(token)
    decreases |s|, 0
  {
    hide BoldHere, CodeHere, AnchorHere, ItalicHere, LinkParts, StartsWith, Depth, Inline;
    if BoldHere(s) > 0 {
      BoldShape(s);
      var inner := s[2..BoldHere(s) - 2];
      InlineDepth(inner);
      assert s[..BoldHere(s)][2..BoldHere(s) - 2] == inner;
    } else if CodeHere(s) > 0 {
      CodeShape(s);
    } else if AnchorHere(s) > 0 {
      var caption, href := AnchorShape(s);
      LinkPartsOf(s[..AnchorHere(s)], caption, href);
      InlineDepth(caption);
      CaptionBound(s[..AnchorHere(s)], caption, href);
    } else {
      ItalicShape(s);
    }
  }

  lemma CaptionBound(token: string, caption: string, href: string)
    requires AnchorToken(token, caption, href)
    ensures 1 + Bound(caption) <= Bound(token)
  {
    assert token[|caption| + 1] == ']';
    assert token[1..|caption| + 1] == caption;
    SliceBound(token, 1, |caption| + 1);
  }

  /** No rendering nests more than three levels deep. */
  lemma NestingAtMostThree(s: string)
    ensures Depth(Inline(s)) <= 3
  {
    InlineDepth(s);
  }
}
