/** What a client of the MCP server sends and what comes of it, said of the requests themselves: the arguments of the
    tools, the rows read for the assistant and the methods served by apps/web/lib/mcp/server.ts. */
module McpCalls {
  import opened Text
  import opened Json
  import opened McpServer
  import BusinessAssistant
  import Decimal
  import FeatureRollout

  lemma FieldGets(entries: seq<Member>, key: string)
    ensures Get(Obj(entries), key) == Field(entries, key)
  {}

  lemma TextGets(entries: seq<Member>, key: string, s: string)
    ensures GetText(Obj(entries), key) == Some(s) <==> Field(entries, key) == Some(Str(s))
    ensures GetText(Obj(entries), key).None? <==> forall t :: Field(entries, key) != Some(Str(t))
  {
    match Field(entries, key)
    case Some(Str(t)) =>
    case _ =>
  }

  // ---------------------------------------------------------------------------------------------
  // The reading tools
  // ---------------------------------------------------------------------------------------------

  /** The entry with this key is missing, and nothing is asked for, or is a whole number within the bounds. */
  predicate Asks(entries: seq<Member>, key: string, min: int, max: int, asked: Option<int>) {
    match Field(entries, key)
    case None => asked.None?
    case Some(Num(lexeme)) => asked.Some? && Decimal.ReadInt(lexeme) == asked && min <= asked.value <= max
    case _ => false
  }

  /** A call of list_records is the API request with its resource, its "limit" as the limit and its "offset" as the
      offset, if and only if the resource is known, the limit is from 1 to 100 and the offset is not negative. */
  lemma ListRequestIff(entries: seq<Member>, request: ApiRequest)
    ensures ReadRequest(false, Obj(entries)) == Some(request) <==>
      && Field(entries, "resource") == Some(Str(request.resource)) && request.resource in MCP_RESOURCES
      && request.id.None?
      && Asks(entries, "limit", 1, 100, request.query.limit)
      && Asks(entries, "offset", 0, 9_007_199_254_740_991, request.query.offset)
  {
    hide MCP_RESOURCES, Field, Decimal.ReadInt, WithKey, Asks, GetText;
    TextGets(entries, "resource", request.resource);
    assert PAGING[..1] == [Limit] && PAGING[..1][..0] == [];
    assert PagingOf(Obj(entries), PAGING) == WithKey(WithKey(Some(NO_QUERY), Obj(entries), Limit), Obj(entries), Offset)
    by {
      assert PagingOf(Obj(entries), [Limit]) == WithKey(PagingOf(Obj(entries), []), Obj(entries), Limit);
    }
    LimitIs(entries, request.query);
  }

  lemma LimitIs(entries: seq<Member>, query: Query)
    ensures WithKey(WithKey(Some(NO_QUERY), Obj(entries), Limit), Obj(entries), Offset) == Some(query) <==>
      Asks(entries, "limit", 1, 100, query.limit) && Asks(entries, "offset", 0, 9_007_199_254_740_991, query.offset)
  {
    hide Field, Decimal.ReadInt;
    FieldGets(entries, "limit");
    FieldGets(entries, "offset");
  }

  /** A call of get_record is the API request for one record of that resource, if and only if the resource is known and
      the "id" is 1 to 100 letters, digits, underscores and hyphens. */
  lemma GetRequestIff(entries: seq<Member>, request: ApiRequest)
    ensures ReadRequest(true, Obj(entries)) == Some(request) <==>
      && Field(entries, "resource") == Some(Str(request.resource)) && request.resource in MCP_RESOURCES
      && request.id.Some? && Field(entries, "id") == Some(Str(request.id.value))
      && 1 <= |request.id.value| <= 100
      && (forall c :: c in request.id.value ==>
            'A' <= c <= 'Z' || 'a' <= c <= 'z' || '0' <= c <= '9' || c == '_' || c == '-')
      && request.query == Query(None, None)
  {
    hide MCP_RESOURCES, Field, GetText, IsRecordId;
    TextGets(entries, "resource", request.resource);
    TextGets(entries, "id", request.id.GetOr(""));
    if GetText(Obj(entries), "id").Some? {
      TextGets(entries, "id", GetText(Obj(entries), "id").value);
    }
    RecordIdIff(request.id.GetOr(""));
  }

  lemma RecordIdIff(id: string)
    ensures IsRecordId(id) <==>
      1 <= |id| <= 100 && forall c :: c in id ==>
        'A' <= c <= 'Z' || 'a' <= c <= 'z' || '0' <= c <= '9' || c == '_' || c == '-'
  {
    hide IsIdChar;
    assert forall c :: IsIdChar(c) <==>
      'A' <= c <= 'Z' || 'a' <= c <= 'z' || '0' <= c <= '9' || c == '_' || c == '-' by { IdChars(); }
    assert forall i :: 0 <= i < |id| ==> id[i] in id;
  }

  lemma IdChars()
    ensures forall c :: IsIdChar(c) <==>
      'A' <= c <= 'Z' || 'a' <= c <= 'z' || '0' <= c <= '9' || c == '_' || c == '-'
  {}

  // ---------------------------------------------------------------------------------------------
  // The assistant
  // ---------------------------------------------------------------------------------------------

  /** The text under "question", without the white space around it. */
  function Asked(entries: seq<Member>): string {
    match Field(entries, "question")
    case Some(Str(s)) => Trim(s)
    case _ => ""
  }

  /** A question is accepted if and only if it has 1 to 500 characters and names no resources, or a list of known ones
      that is not empty; it is then about all resources, or about exactly those named. */
  lemma QuestionIff(entries: seq<Member>)
    ensures AssistantRequest(Obj(entries)).Some? <==>
      && 1 <= |Asked(entries)| <= 500
      && match Field(entries, "resources")
         case None => true
         case Some(Arr(items)) => items != [] && forall v :: v in items ==> v.Str? && v.s in MCP_RESOURCES
         case _ => false
    ensures AssistantRequest(Obj(entries)).Some? ==>
      && AssistantRequest(Obj(entries)).value.question == Asked(entries)
      && forall r :: r in AssistantRequest(Obj(entries)).value.resources <==>
           if Field(entries, "resources").None? then r in MCP_RESOURCES
           else Str(r) in Field(entries, "resources").value.items
  {
    hide MCP_RESOURCES, Field, Trim, FeatureRollout.Dedupe, Names;
    TrimKeepsTrimmed("");
    match Field(entries, "resources")
    case Some(Arr(items)) =>
      if AllResources(items) { NamesAre(items); }
    case _ =>
  }

  lemma NamesAre(items: seq<Value>)
    requires AllResources(items)
    ensures forall r :: r in Names(items) <==> Str(r) in items
  {
    hide MCP_RESOURCES;
    forall r ensures r in Names(items) <==> Str(r) in items {
      if r in Names(items) {
        var i :| 0 <= i < |items| && Names(items)[i] == r;
        assert items[i] == Str(r);
      }
      if Str(r) in items {
        var i :| 0 <= i < |items| && items[i] == Str(r);
        assert Names(items)[i] == r;
      }
    }
  }

  /** The API answered with these rows: a successful response whose body is an object with the list under "data". */
  predicate Answered(fetched: Fetched, rows: seq<Value>) {
    && fetched.Response? && fetched.ok && fetched.json.Some? && fetched.json.value.Obj?
    && Field(fetched.json.value.entries, "data") == Some(Arr(rows))
  }

  /** What the assistant is given: the rows of a resource if and only if it is asked about and the API, asked for its
      first 25, answered with exactly these. */
  lemma {:induction false} ReadIff(deps: Deps, resources: seq<string>, r: string, rows: seq<Value>)
    ensures BusinessAssistant.Resource(r, rows) in RecordsRead(deps, resources) <==>
      r in resources && Answered(deps.apiGet(ApiRequest(r, None, Query(Some(25), None))), rows)
  {
    hide DataOf, Answered;
    if resources != [] {
      ReadIff(deps, resources[1..], r, rows);
      assert resources == [resources[0]] + resources[1..];
      DataIff(deps.apiGet(AssistRead(resources[0])), rows);
    }
  }

  lemma DataIff(fetched: Fetched, rows: seq<Value>)
    ensures DataOf(fetched) == Some(rows) <==> Answered(fetched, rows)
  {
    hide Field;
  }

  /** A skipped resource is reported with the status the API gave it, and was not answered with rows. */
  lemma {:induction false} SkippedIff(deps: Deps, resources: seq<string>, r: string, status: int)
    ensures Skipped(r, status) in SkippedOf(deps, resources) <==>
      var fetched := deps.apiGet(ApiRequest(r, None, Query(Some(25), None)));
      r in resources && fetched.Response? && fetched.status == status && forall rows :: !Answered(fetched, rows)
  {
    hide DataOf, Answered;
    if resources != [] {
      SkippedIff(deps, resources[1..], r, status);
      assert resources == [resources[0]] + resources[1..];
      NoDataIff(deps.apiGet(AssistRead(resources[0])));
    }
  }

  lemma NoDataIff(fetched: Fetched)
    ensures DataOf(fetched).None? <==> forall rows :: !Answered(fetched, rows)
  {
    hide DataOf, Answered;
    forall rows ensures DataOf(fetched) == Some(rows) <==> Answered(fetched, rows) {
      DataIff(fetched, rows);
    }
  }

  // ---------------------------------------------------------------------------------------------
  // Drafts
  // ---------------------------------------------------------------------------------------------

  predicate Hex(s: string, n: nat) {
    |s| == n && forall c :: c in s ==> '0' <= c <= '9' || 'a' <= c <= 'f' || 'A' <= c <= 'F'
  }

  predicate Grouped(s: string, a: string, b: string, c: string, d: string, e: string) {
    && s == a + ("-" + (b + ("-" + (c + ("-" + (d + ("-" + e)))))))
    && Hex(a, 8) && Hex(b, 4) && Hex(c, 4) && Hex(d, 4) && Hex(e, 12)
  }

  /** A conversation id is five groups of hexadecimal digits, 8, 4, 4, 4 and 12 of them, joined by hyphens. */
  lemma UuidIff(s: string)
    ensures IsUuid(s) <==> exists a, b, c, d, e :: Grouped(s, a, b, c, d, e)
  {
    hide IsHexDigit, Hex;
    if IsUuid(s) {
      UuidSplits(s);
      var a, b, c, d, e := s[..8], s[9..13], s[14..18], s[19..23], s[24..];
      assert Grouped(s, a, b, c, d, e);
    }
    forall a, b, c, d, e | Grouped(s, a, b, c, d, e) ensures IsUuid(s) {
      GroupsAreUuid(s, a, b, c, d, e);
    }
  }

  lemma GroupsAreUuid(s: string, a: string, b: string, c: string, d: string, e: string)
    requires Grouped(s, a, b, c, d, e)
    ensures IsUuid(s)
  {
    assert s[8] == '-' && s[13] == '-' && s[18] == '-' && s[23] == '-';
    assert s[..8] == a && s[9..13] == b && s[14..18] == c && s[19..23] == d && s[24..] == e;
    SlicesAreHex(s, 0, a);
    SlicesAreHex(s, 9, b);
    SlicesAreHex(s, 14, c);
    SlicesAreHex(s, 19, d);
    SlicesAreHex(s, 24, e);
  }

  lemma SlicesAreHex(s: string, i: nat, part: string)
    requires i + |part| <= |s| && s[i..i + |part|] == part && Hex(part, |part|)
    ensures forall k :: i <= k < i + |part| ==> IsHexDigit(s[k])
  {
    forall k | i <= k < i + |part| ensures IsHexDigit(s[k]) {
      assert s[k] == part[k - i] && part[k - i] in part;
    }
  }

  lemma UuidSplits(s: string)
    requires IsUuid(s)
    ensures Grouped(s, s[..8], s[9..13], s[14..18], s[19..23], s[24..])
  {
    hide Hex, IsHexDigit;
    HexSlice(s, 0, 8);
    HexSlice(s, 9, 13);
    HexSlice(s, 14, 18);
    HexSlice(s, 19, 23);
    HexSlice(s, 24, 36);
    assert s[..8] == s[0..8] && s[24..] == s[24..36];
    assert s == s[..8] + ("-" + (s[9..13] + ("-" + (s[14..18] + ("-" + (s[19..23] + ("-" + s[24..])))))));
  }

  lemma HexSlice(s: string, i: nat, j: nat)
    requires i <= j <= |s| && forall k :: i <= k < j ==> IsHexDigit(s[k])
    ensures Hex(s[i..j], j - i)
  {
    forall c | c in s[i..j] ensures IsHexDigit(c) {
      var k :| 0 <= k < j - i && s[i..j][k] == c;
      assert s[i + k] == c;
    }
  }

  // ---------------------------------------------------------------------------------------------
  // The methods
  // ---------------------------------------------------------------------------------------------

  /** A request as a client writes it. */
  predicate Requests(message: Value, id: Value, name: string) {
    && message.Obj? && Field(message.entries, "id") == Some(id) && id != Null
    && Field(message.entries, "method") == Some(Str(name))
  }

  function ParamsOf(message: Value): Value
    requires message.Obj?
  {
    Field(message.entries, "params").GetOr(Null)
  }

  /** The entry of an object, if the value is one. */
  function EntryOf(value: Value, key: string): Option<Value> {
    if value.Obj? then Field(value.entries, key) else None
  }

  /** The reply an outcome is made. */
  function Replied(id: Value, outcome: Outcome): Reply {
    match outcome
    case Returned(result) => Succeeded(id, result)
    case ThrewInvalidParams => Failed(id, InvalidParams)
    case ThrewOther => Failed(id, InternalError)
  }

  lemma HandledBy(deps: Deps, message: Value, id: Value, name: string)
    requires Requests(message, id, name)
    ensures HandleOne(deps, message) == Some(
      if MethodNamed(name).None? then Failed(id, MethodNotFound)
      else Replied(id, Dispatch(deps, MethodNamed(name).value, ParamsOf(message))))
  {
    hide MethodNamed, Dispatch, Field;
    FieldGets(message.entries, "id");
    FieldGets(message.entries, "method");
    FieldGets(message.entries, "params");
    assert message == Obj(message.entries);
    assert RequestId(message) == Some(id);
    assert GetText(message, "method") == Some(name);
  }

  /** What each method is answered with, by its name: the version asked for where it is served and the newest one
      otherwise, the lists, the API document for its own address, and an error for a name that is not served. */
  lemma MethodsAnswer(deps: Deps, message: Value, id: Value, name: string)
    requires Requests(message, id, name)
    ensures var reply := HandleOne(deps, message);
      && (name == "ping" ==> reply == Some(Succeeded(id, Pong)))
      && (name == "tools/list" ==> reply == Some(Succeeded(id, ToolList)))
      && (name == "resources/list" ==> reply == Some(Succeeded(id, ResourceList)))
      && (name == "resources/templates/list" ==> reply == Some(Succeeded(id, TemplateList)))
      && (reply == Some(Failed(id, MethodNotFound)) <==>
            name !in {"initialize", "ping", "tools/list", "tools/call", "resources/list", "resources/templates/list",
                      "resources/read"})
  {
    hide Field, ParamsOf, CallTool, Version, NamesDocument;
    HandledBy(deps, message, id, name);
  }

  /** An initialize request is answered with the version it asks for when that is one of the three served, and with the
      newest otherwise. */
  lemma InitializeAnswers(deps: Deps, message: Value, id: Value)
    requires Requests(message, id, "initialize")
    ensures forall v :: EntryOf(ParamsOf(message), "protocolVersion") == Some(Str(v)) && v in VERSIONS ==>
      HandleOne(deps, message) == Some(Succeeded(id, Initialized(v)))
    ensures (forall v :: EntryOf(ParamsOf(message), "protocolVersion") == Some(Str(v)) ==> v !in VERSIONS) ==>
      HandleOne(deps, message) == Some(Succeeded(id, Initialized("2025-06-18")))
  {
    hide Field, ParamsOf;
    HandledBy(deps, message, id, "initialize");
  }

  /** The API document is read under its own address and under no other. */
  lemma DocumentAnswers(deps: Deps, message: Value, id: Value)
    requires Requests(message, id, "resources/read")
    ensures EntryOf(ParamsOf(message), "uri") == Some(Str("wonderark://api/openapi.json")) ==>
      HandleOne(deps, message) == Some(if deps.openApiSpec.Some? then Succeeded(id, ApiDocument(deps.openApiSpec.value))
                                       else Failed(id, InternalError))
    ensures EntryOf(ParamsOf(message), "uri") != Some(Str("wonderark://api/openapi.json")) ==>
      HandleOne(deps, message) == Some(Failed(id, InvalidParams))
  {
    hide Field, ParamsOf;
    HandledBy(deps, message, id, "resources/read");
  }

  /** The arguments of a tool call: the object under "arguments", or none. */
  function ArgumentEntries(params: Value): seq<Member> {
    match EntryOf(params, "arguments")
    case Some(Obj(entries)) => entries
    case _ => []
  }

  /** Which tool a call reaches, by its name, and with which arguments. */
  lemma ToolsAnswer(deps: Deps, message: Value, id: Value, tool: string)
    requires Requests(message, id, "tools/call") && EntryOf(ParamsOf(message), "name") == Some(Str(tool))
    ensures var args := Obj(ArgumentEntries(ParamsOf(message)));
      HandleOne(deps, message) == Some(Replied(id,
        if tool == "list_records" then ReadRecords(deps, false, args)
        else if tool == "get_record" then ReadRecords(deps, true, args)
        else if tool == "ask_assistant" then Ask(deps, args)
        else if tool == "draft_whatsapp_reply" then DraftReply(deps, args)
        else ThrewInvalidParams))
  {
    hide Field, ParamsOf, ReadRecords, Ask, DraftReply;
    HandledBy(deps, message, id, "tools/call");
  }
}
