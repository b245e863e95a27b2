/** JSON values, the compact text JSON.stringify writes for them, and a decoder for that text
    (RFC 8259; strings per its section 7). Objects keep their entries in enumeration order. */
module Json {
  import opened Text

  datatype Member = Member(key: string, value: Value)

  datatype Value =
    | Null
    | Bool(b: bool)
    | Num(lexeme: string)
    | Str(s: string)
    | Arr(items: seq<Value>)
    | Obj(entries: seq<Member>)

  predicate IsNumChar(c: char) {
    '0' <= c <= '9' || c == '-' || c == '+' || c == '.' || c == 'e' || c == 'E'
  }

  /** A number is carried as the text String gives its value, which is what JSON.stringify writes. */
  predicate WellFormed(v: Value) {
    match v
    case Num(lexeme) => lexeme != "" && forall i :: 0 <= i < |lexeme| ==> IsNumChar(lexeme[i])
    case Arr(items) => forall e :: e in items ==> WellFormed(e)
    case Obj(entries) => forall e :: e in entries ==> WellFormed(e.value)
    case _ => true
  }

  /** The value of an object's entry; None when it is missing. */
  function Field(entries: seq<Member>, key: string): Option<Value> {
    if entries == [] then None
    else if entries[0].key == key then Some(entries[0].value)
    else Field(entries[1..], key)
  }

  /** The value of a key is that of its first entry. */
  lemma {:induction false} FieldIs(entries: seq<Member>, key: string)
    ensures Field(entries, key).None? <==> forall i :: 0 <= i < |entries| ==> entries[i].key != key
    ensures forall i: nat :: FirstEntry(entries, key, i) ==> Field(entries, key) == Some(entries[i].value)
  {
    if entries != [] {
      var rest := entries[1..];
      FieldIs(rest, key);
      assert forall i :: 0 <= i < |rest| ==> rest[i] == entries[i + 1];
      assert forall i: nat :: FirstEntry(entries, key, i) && i > 0 ==> FirstEntry(rest, key, i - 1);
    }
  }

  ghost predicate FirstEntry(entries: seq<Member>, key: string, i: nat) {
    i < |entries| && entries[i].key == key && forall j :: 0 <= j < i ==> entries[j].key != key
  }

  // ---------------------------------------------------------------------------------------------
  // Writing
  // ---------------------------------------------------------------------------------------------

  function HexDigit(d: nat): (c: char)
    requires d < 16
  {
    if d < 10 then ('0' as int + d) as char else ('a' as int + d - 10) as char
  }

  function EscapeChar(c: char): string {
    if c == '"' then "\\\""
    else if c == '\\' then "\\\\"
    else if c == '\U{8}' then "\\b"
    else if c == '\t' then "\\t"
    else if c == '\n' then "\\n"
    else if c == '\U{C}' then "\\f"
    else if c == '\r' then "\\r"
    else if c < ' ' then "\\u00" + [HexDigit(c as int / 16), HexDigit(c as int % 16)]
    else [c]
  }

  /** Every character is written as short as it can be: itself when it may stand alone, two characters when it has an
      escape of its own, and six otherwise. */
  lemma EscapesAreShort(c: char)
    ensures EscapeChar(c) == [c] <==> c >= ' ' && c != '"' && c != '\\'
    ensures |EscapeChar(c)| == 2 <==>
      c == '"' || c == '\\' || c == '\U{8}' || c == '\t' || c == '\n' || c == '\U{C}' || c == '\r'
    ensures |EscapeChar(c)| == 1 || |EscapeChar(c)| == 2 || |EscapeChar(c)| == 6
  {}

  function EscapeString(s: string): string {
    if s == "" then "" else EscapeChar(s[0]) + EscapeString(s[1..])
  }

  function Quote(s: string): string { "\"" + EscapeString(s) + "\"" }

  /** JSON.stringify. */
  function Stringify(v: Value): string
    decreases v
  {
    match v
    case Null => "null"
    case Bool(b) => if b then "true" else "false"
    case Num(lexeme) => lexeme
    case Str(s) => Quote(s)
    case Arr(items) => "[" + (Elements(items) + "]")
    case Obj(entries) => "{" + (Members(entries) + "}")
  }

  function Elements(items: seq<Value>): string
    decreases items
  {
    if items == [] then ""
    else if |items| == 1 then Stringify(items[0])
    else Stringify(items[0]) + ("," + Elements(items[1..]))
  }

  function MemberText(m: Member): string
    decreases m
  {
    match m case Member(key, value) => Quote(key) + (":" + Stringify(value))
  }

  function Members(entries: seq<Member>): string
    decreases entries
  {
    if entries == [] then ""
    else
      var head := MemberText(entries[0]);
      if |entries| == 1 then head else head + ("," + Members(entries[1..]))
  }

  /** text.replace(/</g, "\\u003c"). */
  function Guard(text: string): string {
    if text == "" then ""
    else (if text[0] == '<' then "\\u003c" else [text[0]]) + Guard(text[1..])
  }

  lemma {:induction false} GuardAppend(a: string, b: string)
    ensures Guard(a + b) == Guard(a) + Guard(b)
  {
    if a == "" {
      assert a + b == b;
    } else {
      assert (a + b)[1..] == a[1..] + b;
      GuardAppend(a[1..], b);
    }
  }

  lemma {:induction false} GuardShape(text: string)
    ensures '<' !in Guard(text)
    ensures '\n' !in text ==> '\n' !in Guard(text)
    ensures '<' !in text ==> Guard(text) == text
    ensures |text| <= |Guard(text)| <= 6 * |text|
  {
    if text != "" {
      GuardShape(text[1..]);
      assert text == [text[0]] + text[1..];
    }
  }

  // ---------------------------------------------------------------------------------------------
  // Decoding
  // ---------------------------------------------------------------------------------------------

  function HexValue(c: char): Option<nat> {
    if '0' <= c <= '9' then Some(c as int - '0' as int)
    else if 'a' <= c <= 'f' then Some(c as int - 'a' as int + 10)
    else if 'A' <= c <= 'F' then Some(c as int - 'A' as int + 10)
    else None
  }

  /** The character a \u escape names; code points of the surrogate range name none. */
  function Unicode(hex: string): Option<char>
    requires |hex| == 4
  {
    match (HexValue(hex[0]), HexValue(hex[1]), HexValue(hex[2]), HexValue(hex[3]))
    case (Some(a), Some(b), Some(c), Some(d)) =>
      var code := ((a * 16 + b) * 16 + c) * 16 + d;
      if code < 0xD800 || 0xE000 <= code < 0x10000 then Some(code as char) else None
    case _ => None
  }

  function ShortEscape(c: char): Option<char> {
    if c == '"' || c == '\\' || c == '/' then Some(c)
    else if c == 'b' then Some('\U{8}')
    else if c == 'f' then Some('\U{C}')
    else if c == 'n' then Some('\n')
    else if c == 'r' then Some('\r')
    else if c == 't' then Some('\t')
    else None
  }

  /** The rest of a string literal after its opening quote, and what follows its closing quote. */
  function ReadString(s: string, acc: string): (r: Option<(string, string)>)
    ensures r.Some? ==> |r.value.1| < |s|
    decreases |s|
  {
    if s == "" then None
    else if s[0] == '"' then Some((acc, s[1..]))
    else if s[0] == '\\' then
      if |s| >= 6 && s[1] == 'u' then
        match Unicode(s[2..6])
        case Some(c) => ReadString(s[6..], acc + [c])
        case None => None
      else if |s| >= 2 then
        match ShortEscape(s[1])
        case Some(c) => ReadString(s[2..], acc + [c])
        case None => None
      else None
    else if s[0] < ' ' then None
    else ReadString(s[1..], acc + [s[0]])
  }

  function NumPrefix(s: string): (n: nat)
    ensures n <= |s|
  {
    if s != "" && IsNumChar(s[0]) then 1 + NumPrefix(s[1..]) else 0
  }

  function ReadValue(s: string): (r: Option<(Value, string)>)
    ensures r.Some? ==> |r.value.1| < |s|
    decreases |s|, 0
  {
    if s == "" then None
    else if s[0] == 'n' then if StartsWith(s, "null") then Some((Null, s[4..])) else None
    else if s[0] == 't' then if StartsWith(s, "true") then Some((Bool(true), s[4..])) else None
    else if s[0] == 'f' then if StartsWith(s, "false") then Some((Bool(false), s[5..])) else None
    else if s[0] == '"' then
      match ReadString(s[1..], "")
      case Some((text, rest)) => Some((Str(text), rest))
      case None => None
    else if s[0] == '[' then
      if |s| > 1 && s[1] == ']' then Some((Arr([]), s[2..]))
      else
        match ReadElements(s[1..])
        case Some((items, rest)) => Some((Arr(items), rest))
        case None => None
    else if s[0] == '{' then
      if |s| > 1 && s[1] == '}' then Some((Obj([]), s[2..]))
      else
        match ReadMembers(s[1..])
        case Some((entries, rest)) => Some((Obj(entries), rest))
        case None => None
    else if IsNumChar(s[0]) then Some((Num(s[..NumPrefix(s)]), s[NumPrefix(s)..]))
    else None
  }

  /** One or more comma-separated values and the closing bracket. */
  function ReadElements(s: string): (r: Option<(seq<Value>, string)>)
    ensures r.Some? ==> |r.value.1| < |s|
    decreases |s|, 1
  {
    match ReadValue(s)
    case None => None
    case Some((v, rest)) =>
      if rest != "" && rest[0] == ']' then Some(([v], rest[1..]))
      else if rest != "" && rest[0] == ',' then
        match ReadElements(rest[1..])
        case Some((more, end)) => Some(([v] + more, end))
        case None => None
      else None
  }

  /** One or more comma-separated members and the closing brace. */
  function ReadMembers(s: string): (r: Option<(seq<Member>, string)>)
    ensures r.Some? ==> |r.value.1| < |s|
    decreases |s|, 1
  {
    if s == "" || s[0] != '"' then None
    else
      match ReadString(s[1..], "")
      case None => None
      case Some((key, colon)) =>
        if colon == "" || colon[0] != ':' then None
        else
          match ReadValue(colon[1..])
          case None => None
          case Some((v, rest)) =>
            if rest != "" && rest[0] == '}' then Some(([Member(key, v)], rest[1..]))
            else if rest != "" && rest[0] == ',' then
              match ReadMembers(rest[1..])
              case Some((more, end)) => Some(([Member(key, v)] + more, end))
              case None => None
            else None
  }

  /** The value a whole text denotes. */
  function Decode(text: string): Option<Value> {
    match ReadValue(text)
    case Some((v, rest)) => if rest == "" then Some(v) else None
    case None => None
  }

  // ---------------------------------------------------------------------------------------------
  // Decoding the guarded text gives the value back
  // ---------------------------------------------------------------------------------------------

  lemma ReadUnicodeEscape(c: char, hex: string, rest: string, acc: string)
    requires |hex| == 4 && Unicode(hex) == Some(c)
    ensures ReadString("\\u" + hex + rest, acc) == ReadString(rest, acc + [c])
  {
    var s := "\\u" + hex + rest;
    assert s[2..6] == hex && s[6..] == rest;
  }

  lemma ReadShortEscape(c: char, e: char, rest: string, acc: string)
    requires ShortEscape(e) == Some(c)
    ensures ReadString("\\" + [e] + rest, acc) == ReadString(rest, acc + [c])
  {
    var s := "\\" + [e] + rest;
    assert s[2..] == rest;
    assert s[0] == '\\' && s[1] == e && e != 'u';
  }

  lemma ReadPlainChar(c: char, rest: string, acc: string)
    requires c != '"' && c != '\\' && c >= ' '
    ensures ReadString([c] + rest, acc) == ReadString(rest, acc + [c])
  {
    assert ([c] + rest)[1..] == rest;
  }

  lemma UnicodeOfControl(c: char)
    requires c < ' '
    ensures Unicode("00" + [HexDigit(c as int / 16), HexDigit(c as int % 16)]) == Some(c)
  {
    var a, b := c as int / 16, c as int % 16;
    assert HexValue(HexDigit(a)) == Some(a) && HexValue(HexDigit(b)) == Some(b);
    assert HexValue('0') == Some(0);
  }

  lemma ReadEscapedChar(c: char, rest: string, acc: string)
    ensures ReadString(Guard(EscapeChar(c)) + rest, acc) == ReadString(rest, acc + [c])
  {
    hide ReadString;
    var e := EscapeChar(c);
    GuardShape(e);
    if c == '<' {
      assert e[1..] == "" && Guard(e) == "\\u" + "003c";
      ReadUnicodeEscape(c, "003c", rest, acc);
    } else if |e| == 6 {
      var hex := "00" + [HexDigit(c as int / 16), HexDigit(c as int % 16)];
      UnicodeOfControl(c);
      assert e == "\\u" + hex;
      ReadUnicodeEscape(c, hex, rest, acc);
    } else if |e| == 2 {
      assert e == "\\" + [e[1]];
      ReadShortEscape(c, e[1], rest, acc);
    } else {
      ReadPlainChar(c, rest, acc);
    }
  }

  lemma GuardEscapeStep(s: string)
    ensures s == "" ==> Guard(EscapeString(s)) == ""
    ensures s != "" ==> Guard(EscapeString(s)) == Guard(EscapeChar(s[0])) + Guard(EscapeString(s[1..]))
  {
    if s != "" { GuardAppend(EscapeChar(s[0]), EscapeString(s[1..])); }
  }

  lemma ReadClosingQuote(rest: string, acc: string)
    ensures ReadString("\"" + rest, acc) == Some((acc, rest))
  {
    assert ("\"" + rest)[1..] == rest;
  }

  lemma {:induction false} ReadEscaped(s: string, rest: string, acc: string)
    ensures ReadString(Guard(EscapeString(s)) + ("\"" + rest), acc) == Some((acc + s, rest))
  {
    hide ReadString, Guard, EscapeString, EscapeChar;
    var close := "\"" + rest;
    GuardEscapeStep(s);
    if s == "" {
      ReadClosingQuote(rest, acc);
      assert Guard(EscapeString(s)) + close == close && acc + s == acc;
    } else {
      var tail := Guard(EscapeString(s[1..])) + close;
      Assoc(Guard(EscapeChar(s[0])), Guard(EscapeString(s[1..])), close);
      ReadEscapedChar(s[0], tail, acc);
      ReadEscaped(s[1..], rest, acc + [s[0]]);
      assert acc + [s[0]] + s[1..] == acc + s;
    }
  }

  lemma GuardQuote(s: string)
    ensures Guard(Quote(s)) == "\"" + (Guard(EscapeString(s)) + "\"")
  {
    GuardShape("\"");
    GuardAppend("\"" + EscapeString(s), "\"");
    GuardAppend("\"", EscapeString(s));
    Assoc("\"", Guard(EscapeString(s)), "\"");
  }

  lemma ReadQuoted(s: string, rest: string)
    ensures var text := Guard(Quote(s)) + rest;
      text != "" && text[0] == '"' && ReadString(text[1..], "") == Some((s, rest))
  {
    GuardQuote(s);
    var text := Guard(Quote(s)) + rest;
    assert text == "\"" + (Guard(EscapeString(s)) + ("\"" + rest));
    assert text[1..] == Guard(EscapeString(s)) + ("\"" + rest);
    ReadEscaped(s, rest, "");
    assert "" + s == s;
  }

  lemma {:induction false} NumPrefixIs(lexeme: string, rest: string)
    requires forall i :: 0 <= i < |lexeme| ==> IsNumChar(lexeme[i])
    requires rest == "" || !IsNumChar(rest[0])
    ensures NumPrefix(lexeme + rest) == |lexeme|
  {
    if lexeme == "" {
      assert lexeme + rest == rest;
    } else {
      assert (lexeme + rest)[1..] == lexeme[1..] + rest;
      NumPrefixIs(lexeme[1..], rest);
    }
  }

  /** What may follow a value without running into it. */
  predicate EndsValue(rest: string) {
    rest == "" || rest[0] == ',' || rest[0] == ']' || rest[0] == '}'
  }

  lemma NumHasNoLt(lexeme: string)
    requires WellFormed(Num(lexeme))
    ensures '<' !in lexeme && '\n' !in lexeme
  {}

  lemma ReadWord(word: string, rest: string)
    requires word == "null" || word == "true" || word == "false"
    ensures ReadValue(Guard(word) + rest)
         == Some((if word == "null" then Null else Bool(word == "true"), rest))
  {
    hide Guard, ReadString, ReadElements, ReadMembers, NumPrefix;
    GuardShape(word);
    var text := word + rest;
    assert text[..|word|] == word && text[|word|..] == rest && text[0] == word[0];
  }

  lemma ReadNumber(lexeme: string, rest: string)
    requires WellFormed(Num(lexeme)) && EndsValue(rest)
    ensures ReadValue(Guard(lexeme) + rest) == Some((Num(lexeme), rest))
  {
    NumHasNoLt(lexeme);
    GuardShape(lexeme);
    NumPrefixIs(lexeme, rest);
    var text := lexeme + rest;
    assert text[0] == lexeme[0] && IsNumChar(text[0]);
    assert text[..|lexeme|] == lexeme && text[|lexeme|..] == rest;
  }

  lemma {:induction false} ReadStringified(v: Value, rest: string)
    requires WellFormed(v) && EndsValue(rest)
    ensures ReadValue(Guard(Stringify(v)) + rest) == Some((v, rest))
    decreases v, 1
  {
    match v {
      case Null => ReadWord("null", rest);
      case Bool(b) => ReadWord(if b then "true" else "false", rest);
      case Num(lexeme) => ReadNumber(lexeme, rest);
      case Str(s) => ReadQuoted(s, rest);
      case Arr(items) => ReadBracketed(items, rest);
      case Obj(entries) => ReadBraced(entries, rest);
    }
  }

  lemma GuardWrap(open: string, inner: string, close: string)
    requires '<' !in open && '<' !in close
    ensures Guard(open + (inner + close)) == open + (Guard(inner) + close)
  {
    GuardShape(open);
    GuardShape(close);
    GuardAppend(open, inner + close);
    GuardAppend(inner, close);
  }

  /** No written value begins with a closing bracket or brace. */
  lemma FirstChar(v: Value)
    requires WellFormed(v)
    ensures Guard(Stringify(v)) != "" && Guard(Stringify(v))[0] != ']' && Guard(Stringify(v))[0] != '}'
  {
    GuardShape(Stringify(v));
    assert Stringify(v) != "";
    assert Guard(Stringify(v))[0] == Stringify(v)[0] || Guard(Stringify(v))[0] == '\\';
  }

  lemma {:induction false} ReadBracketed(items: seq<Value>, rest: string)
    requires WellFormed(Arr(items)) && EndsValue(rest)
    ensures ReadValue(Guard(Stringify(Arr(items))) + rest) == Some((Arr(items), rest))
    decreases items, 3
  {
    hide Guard, ReadElements, ReadMembers, ReadString;
    var inner := Guard(Elements(items));
    GuardWrap("[", Elements(items), "]");
    Wrapped("[", inner, "]", rest);
    if items == [] {
      GuardShape("");
      assert inner == "" && "" + ("]" + rest) == "]" + rest;
      ReadEmpty(rest);
    } else {
      ElementsFirst(items);
      ReadItems(items, rest);
      OpenBracket(inner + ("]" + rest), items, rest);
    }
  }

  lemma ReadEmpty(rest: string)
    ensures ReadValue("[" + ("]" + rest)) == Some((Arr([]), rest))
    ensures ReadValue("{" + ("}" + rest)) == Some((Obj([]), rest))
  {
    assert ("[" + ("]" + rest))[2..] == rest && ("{" + ("}" + rest))[2..] == rest;
  }

  lemma OpenBracket(text: string, items: seq<Value>, rest: string)
    requires text != "" && text[0] != ']' && ReadElements(text) == Some((items, rest))
    ensures ReadValue("[" + text) == Some((Arr(items), rest))
  {
    assert ("[" + text)[1..] == text;
  }

  lemma OpenBrace(text: string, entries: seq<Member>, rest: string)
    requires text != "" && text[0] != '}' && ReadMembers(text) == Some((entries, rest))
    ensures ReadValue("{" + text) == Some((Obj(entries), rest))
  {
    assert ("{" + text)[1..] == text;
  }

  lemma Wrapped(open: string, inner: string, close: string, rest: string)
    ensures open + (inner + close) + rest == open + (inner + (close + rest))
  {
    Assoc(open, inner + close, rest);
    Assoc(inner, close, rest);
  }

  lemma ElementsFirst(items: seq<Value>)
    requires items != [] && WellFormed(Arr(items))
    ensures Guard(Elements(items)) != "" && Guard(Elements(items))[0] != ']'
  {
    assert items[0] in items;
    FirstChar(items[0]);
    if |items| > 1 { GuardAppend(Stringify(items[0]), "," + Elements(items[1..])); }
  }

  lemma {:induction false} ReadItems(items: seq<Value>, rest: string)
    requires items != [] && WellFormed(Arr(items))
    ensures ReadElements(Guard(Elements(items)) + ("]" + rest)) == Some((items, rest))
    decreases items, 2
  {
    hide Guard, ReadElements, ReadValue, Stringify;
    var close := "]" + rest;
    assert items[0] in items;
    if |items| == 1 {
      ReadStringified(items[0], close);
      LastElement(Guard(Stringify(items[0])) + close, items[0], rest);
      assert items == [items[0]];
    } else {
      var head, more := Guard(Stringify(items[0])), Guard(Elements(items[1..]));
      GuardAppend(Stringify(items[0]), "," + Elements(items[1..]));
      GuardShape(",");
      GuardAppend(",", Elements(items[1..]));
      Assoc(head, "," + more, close);
      Assoc(",", more, close);
      ReadStringified(items[0], "," + (more + close));
      assert forall e :: e in items[1..] ==> e in items;
      ReadItems(items[1..], rest);
      NextElement(head + ("," + (more + close)), items[0], more + close, items[1..], rest);
      assert items == [items[0]] + items[1..];
    }
  }

  lemma LastElement(text: string, v: Value, rest: string)
    requires ReadValue(text) == Some((v, "]" + rest))
    ensures ReadElements(text) == Some(([v], rest))
  {
    assert ("]" + rest)[1..] == rest;
  }

  lemma NextElement(text: string, v: Value, tail: string, more: seq<Value>, rest: string)
    requires ReadValue(text) == Some((v, "," + tail)) && ReadElements(tail) == Some((more, rest))
    ensures ReadElements(text) == Some(([v] + more, rest))
  {
    assert ("," + tail)[1..] == tail;
  }

  lemma {:induction false} ReadBraced(entries: seq<Member>, rest: string)
    requires WellFormed(Obj(entries)) && EndsValue(rest)
    ensures ReadValue(Guard(Stringify(Obj(entries))) + rest) == Some((Obj(entries), rest))
    decreases entries, 4
  {
    hide Guard, ReadElements, ReadMembers, ReadString;
    var inner := Guard(Members(entries));
    GuardWrap("{", Members(entries), "}");
    Wrapped("{", inner, "}", rest);
    if entries == [] {
      GuardShape("");
      assert inner == "" && "" + ("}" + rest) == "}" + rest;
      ReadEmpty(rest);
    } else {
      MembersFirst(entries);
      ReadEntries(entries, rest);
      OpenBrace(inner + ("}" + rest), entries, rest);
    }
  }

  lemma MembersFirst(entries: seq<Member>)
    requires entries != []
    ensures Guard(Members(entries)) != "" && Guard(Members(entries))[0] == '"'
  {
    GuardQuote(entries[0].key);
    GuardAppend(Quote(entries[0].key), ":" + Stringify(entries[0].value));
    if |entries| > 1 { GuardAppend(MemberText(entries[0]), "," + Members(entries[1..])); }
  }

  lemma GuardMember(m: Member, rest: string)
    ensures Guard(MemberText(m)) + rest
         == Guard(Quote(m.key)) + (":" + (Guard(Stringify(m.value)) + rest))
  {
    var quoted, value := Guard(Quote(m.key)), Guard(Stringify(m.value));
    GuardAppend(Quote(m.key), ":" + Stringify(m.value));
    GuardShape(":");
    GuardAppend(":", Stringify(m.value));
    Assoc(quoted, ":" + value, rest);
    Assoc(":", value, rest);
  }

  lemma {:induction false} ReadEntries(entries: seq<Member>, rest: string)
    requires entries != [] && WellFormed(Obj(entries))
    ensures ReadMembers(Guard(Members(entries)) + ("}" + rest)) == Some((entries, rest))
    decreases entries, 3
  {
    hide Guard, ReadMembers, MemberText;
    var close := "}" + rest;
    assert entries[0] in entries;
    if |entries| == 1 {
      ReadLastMember(entries[0], rest);
      assert entries == [entries[0]];
    } else {
      var more := Guard(Members(entries[1..]));
      GuardAppend(MemberText(entries[0]), "," + Members(entries[1..]));
      GuardShape(",");
      GuardAppend(",", Members(entries[1..]));
      Assoc(Guard(MemberText(entries[0])), "," + more, close);
      Assoc(",", more, close);
      assert forall e :: e in entries[1..] ==> e in entries;
      ReadEntries(entries[1..], rest);
      ReadNextMember(entries[0], more + close, entries[1..], rest);
      assert entries == [entries[0]] + entries[1..];
    }
  }

  lemma {:induction false} ReadLastMember(m: Member, rest: string)
    requires WellFormed(m.value)
    ensures ReadMembers(Guard(MemberText(m)) + ("}" + rest)) == Some(([m], rest))
    decreases m, 3
  {
    hide Guard, MemberText, ReadValue, ReadString, Stringify;
    ReadMember(m, "}" + rest);
    assert ("}" + rest)[1..] == rest;
  }

  lemma {:induction false} ReadNextMember(m: Member, text: string, more: seq<Member>, rest: string)
    requires WellFormed(m.value)
    requires ReadMembers(text) == Some((more, rest))
    ensures ReadMembers(Guard(MemberText(m)) + ("," + text)) == Some(([m] + more, rest))
    decreases m, 3
  {
    hide Guard, MemberText, ReadValue, ReadString, Stringify;
    ReadMember(m, "," + text);
    assert ("," + text)[1..] == text;
  }

  /** The first member of an object's text, and what the reader has left after it. */
  lemma {:induction false} ReadMember(m: Member, rest: string)
    requires WellFormed(m.value) && EndsValue(rest)
    ensures var text := Guard(MemberText(m)) + rest;
      && text != "" && text[0] == '"'
      && ReadString(text[1..], "") == Some((m.key, ":" + (Guard(Stringify(m.value)) + rest)))
      && (":" + (Guard(Stringify(m.value)) + rest))[1..] == Guard(Stringify(m.value)) + rest
      && ReadValue(Guard(Stringify(m.value)) + rest) == Some((m.value, rest))
    decreases m, 2
  {
    GuardMember(m, rest);
    ReadQuoted(m.key, ":" + (Guard(Stringify(m.value)) + rest));
    match m case Member(_, value) => ReadStringified(value, rest);
  }

  /** Decoding what was written, with every '<' guarded, gives the value back. */
  lemma DecodeGuarded(v: Value)
    requires WellFormed(v)
    ensures Decode(Guard(Stringify(v))) == Some(v)
  {
    ReadStringified(v, "");
    assert Guard(Stringify(v)) + "" == Guard(Stringify(v));
  }

  /** Two values are written alike only if they are the same value. */
  lemma StringifyInjective(a: Value, b: Value)
    requires WellFormed(a) && WellFormed(b)
    ensures Stringify(a) == Stringify(b) <==> a == b
  {
    DecodeGuarded(a);
    DecodeGuarded(b);
  }

  lemma {:induction false} EscapedOnOneLine(s: string)
    ensures '\n' !in EscapeString(s)
  {
    if s != "" {
      EscapedOnOneLine(s[1..]);
    }
  }

  /** A written value is one line, whatever newlines its strings hold. */
  lemma {:induction false} OnOneLine(v: Value)
    requires WellFormed(v)
    ensures '\n' !in Stringify(v) && Stringify(v) != ""
    decreases v, 0
  {
    match v {
      case Str(s) => EscapedOnOneLine(s);
      case Num(lexeme) => NumHasNoLt(lexeme);
      case Arr(items) => ElementsOnOneLine(items);
      case Obj(entries) => MembersOnOneLine(entries);
      case _ =>
    }
  }

  lemma {:induction false} ElementsOnOneLine(items: seq<Value>)
    requires WellFormed(Arr(items))
    ensures '\n' !in Elements(items)
    decreases items, 1
  {
    if items != [] {
      assert items[0] in items && forall e :: e in items[1..] ==> e in items;
      OnOneLine(items[0]);
      ElementsOnOneLine(items[1..]);
    }
  }

  lemma {:induction false} MembersOnOneLine(entries: seq<Member>)
    requires WellFormed(Obj(entries))
    ensures '\n' !in Members(entries)
    decreases entries, 1
  {
    if entries != [] {
      assert entries[0] in entries && forall e :: e in entries[1..] ==> e in entries;
      EscapedOnOneLine(entries[0].key);
      OnOneLine(entries[0].value);
      MembersOnOneLine(entries[1..]);
    }
  }
}
