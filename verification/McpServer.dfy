/** The MCP server: the JSON-RPC dispatcher and the tools of apps/web/lib/mcp/server.ts. The API, the assistant,
    the drafting of replies and the API document are dependencies that may answer or fail in any way. */
module McpServer {
  import opened Text
  import opened Json
  import BusinessAssistant
  import Decimal
  import FeatureRollout
  import PromptReader

  const MCP_RESOURCES: seq<string> :=
    ["products", "warehouses", "inventory", "purchase-orders", "sales-orders", "customers", "suppliers",
     "sales-invoices", "jobs", "tickets", "einvoices"]

  const VERSIONS: seq<string> := ["2025-06-18", "2025-03-26", "2024-11-05"]

  const MAX_LIMIT := 100
  const ASSIST_ROWS := 25
  const MAX_QUESTION_LENGTH := 500
  const MAX_SAFE_INTEGER := 9_007_199_254_740_991

  // ---------------------------------------------------------------------------------------------
  // What the dependencies answer
  // ---------------------------------------------------------------------------------------------

  /** A GET on the API: its response, with the body as JSON when it reads as JSON, or a throw. */
  datatype Fetched = FetchThrew | Response(ok: bool, status: int, json: Option<Value>, text: Option<string>)

  datatype Query = Query(limit: Option<int>, offset: Option<int>)

  datatype ApiRequest = ApiRequest(resource: string, id: Option<string>, query: Query)

  datatype Answer = Answer(answer: string, answered: bool, usedResources: seq<string>) | AnswerThrew

  datatype Draft = Drafted(draft: Value) | DraftThrew

  datatype Deps = Deps(
    apiGet: ApiRequest -> Fetched, askAssistant: (string, seq<BusinessAssistant.Resource>) -> Answer,
    draftReply: string -> Draft, openApiSpec: Option<Value>, version: string)

  // ---------------------------------------------------------------------------------------------
  // Replies
  // ---------------------------------------------------------------------------------------------

  datatype Skipped = Skipped(resource: string, status: int)

  datatype Content =
    | Text(text: string)
    | AssistantAnswer(answer: string, answered: bool, sources: seq<string>, skipped: seq<Skipped>)
    | AssistantFailed(why: Failure, skipped: seq<Skipped>)
    | DraftReady(draft: Value)
    | DraftFailed

  datatype Failure = NothingReadable | CouldNotAnswer

  datatype Result =
    | Initialized(protocolVersion: string)
    | Pong
    | ToolList
    | Tool(content: Content, isError: bool)
    | ResourceList
    | TemplateList
    | ApiDocument(document: Value)

  /** The error codes of section 5.1 of JSON-RPC 2.0. */
  datatype Code = InvalidRequest | MethodNotFound | InvalidParams | InternalError

  datatype Reply = Succeeded(id: Value, result: Result) | Failed(id: Value, code: Code)

  /** What a call ends in before it is made a reply. */
  datatype Outcome = Returned(result: Result) | ThrewInvalidParams | ThrewOther

  // ---------------------------------------------------------------------------------------------
  // Arguments
  // ---------------------------------------------------------------------------------------------

  /** value[key] on anything but null and undefined: missing unless it is an object that has it. */
  function Get(value: Value, key: string): Option<Value> {
    match value
    case Obj(entries) => Field(entries, key)
    case _ => None
  }

  function GetText(value: Value, key: string): Option<string> {
    match Get(value, key)
    case Some(Str(s)) => Some(s)
    case _ => None
  }

  function ArgumentsOf(params: Value): Value {
    match Get(params, "arguments")
    case Some(Obj(entries)) => Obj(entries)
    case _ => Obj([])
  }

  predicate AllResources(items: seq<Value>) {
    forall v :: v in items ==> v.Str? && v.s in MCP_RESOURCES
  }

  function Names(items: seq<Value>): (names: seq<string>)
    requires AllResources(items)
    ensures |names| == |items| && forall i :: 0 <= i < |items| ==> items[i] == Str(names[i])
  {
    seq(|items|, i requires 0 <= i < |items| => items[i].s)
  }

  datatype Question = Question(question: string, resources: seq<string>)

  /** toAssistantRequest; None is InvalidParams. */
  function AssistantRequest(args: Value): Option<Question> {
    var question := Trim(GetText(args, "question").GetOr(""));
    if !(1 <= |question| <= MAX_QUESTION_LENGTH) then None
    else
      match Get(args, "resources")
      case None => Some(Question(question, MCP_RESOURCES))
      case Some(Arr(items)) =>
        if items == [] || !AllResources(items) then None
        else Some(Question(question, FeatureRollout.Dedupe(Names(items))))
      case _ => None
  }

  predicate IsIdChar(c: char) {
    'A' <= c <= 'Z' || 'a' <= c <= 'z' || '0' <= c <= '9' || c == '_' || c == '-'
  }

  /** ^[A-Za-z0-9_-]{1,100}$ */
  predicate IsRecordId(id: string) {
    1 <= |id| <= 100 && forall i :: 0 <= i < |id| ==> IsIdChar(id[i])
  }

  /** A whole number between the bounds. A number arrives as a value and is carried as the text String gives it, so
      1.0 is carried as 1 and 1e1 as 10. */
  function Bounded(value: Value, min: int, max: int): Option<int> {
    match value
    case Num(lexeme) =>
      var n := Decimal.ReadInt(lexeme);
      if n.Some? && min <= n.value <= max then n else None
    case _ => None
  }

  datatype PagingKey = Limit | Offset

  const PAGING: seq<PagingKey> := [Limit, Offset]

  function KeyName(key: PagingKey): string {
    match key case Limit => "limit" case Offset => "offset"
  }

  function Lowest(key: PagingKey): int {
    match key case Limit => 1 case Offset => 0
  }

  function Highest(key: PagingKey): int {
    match key case Limit => MAX_LIMIT case Offset => MAX_SAFE_INTEGER
  }

  function SetKey(query: Query, key: PagingKey, value: int): Query {
    match key
    case Limit => query.(limit := Some(value))
    case Offset => query.(offset := Some(value))
  }

  /** None is InvalidParams. */
  function WithKey(query: Option<Query>, args: Value, key: PagingKey): Option<Query> {
    if query.None? then None
    else
      match Get(args, KeyName(key))
      case None => query
      case Some(value) =>
        match Bounded(value, Lowest(key), Highest(key))
        case None => None
        case Some(n) => Some(SetKey(query.value, key, n))
  }

  const NO_QUERY: Query := Query(None, None)

  function PagingOf(args: Value, keys: seq<PagingKey>): Option<Query> {
    if keys == [] then Some(NO_QUERY) else WithKey(PagingOf(args, keys[..|keys| - 1]), args, keys[|keys| - 1])
  }

  /** toApiRequest for the two reading tools; None is InvalidParams. */
  function ReadRequest(one: bool, args: Value): Option<ApiRequest> {
    match GetText(args, "resource")
    case None => None
    case Some(resource) =>
      if resource !in MCP_RESOURCES then None
      else if one then
        match GetText(args, "id")
        case None => None
        case Some(id) => if IsRecordId(id) then Some(ApiRequest(resource, Some(id), NO_QUERY)) else None
      else
        match PagingOf(args, PAGING)
        case None => None
        case Some(query) => Some(ApiRequest(resource, None, query))
  }

  method ToApiRequest(one: bool, args: Value) returns (request: Option<ApiRequest>)
    ensures request == ReadRequest(one, args)
  {
    hide MCP_RESOURCES, Get, IsRecordId, KeyName, Bounded;
    var resource := GetText(args, "resource");
    if resource.None? || resource.value !in MCP_RESOURCES {
      return None;
    }
    if one {
      var id := GetText(args, "id");
      if id.None? || !IsRecordId(id.value) {
        return None;
      }
      return Some(ApiRequest(resource.value, id, NO_QUERY));
    }
    var query := NO_QUERY;
    for i := 0 to |PAGING|
      invariant PagingOf(args, PAGING[..i]) == Some(query)
    {
      var key := PAGING[i];
      assert PAGING[..i + 1][..i] == PAGING[..i];
      var value := Get(args, KeyName(key));
      if value.None? {
        continue;
      }
      var n := Bounded(value.value, Lowest(key), Highest(key));
      if n.None? {
        RefusedStays(args, PAGING, i + 1);
        return None;
      }
      query := SetKey(query, key, n.value);
    }
    assert PAGING[..|PAGING|] == PAGING;
    return Some(ApiRequest(resource.value, None, query));
  }

  lemma {:induction false} RefusedStays(args: Value, keys: seq<PagingKey>, n: nat)
    requires n <= |keys| && PagingOf(args, keys[..n]) == None
    ensures PagingOf(args, keys) == None
    decreases |keys| - n
  {
    if n == |keys| {
      assert keys[..n] == keys;
    } else {
      assert keys[..n + 1][..n] == keys[..n];
      RefusedStays(args, keys, n + 1);
    }
  }

  // ---------------------------------------------------------------------------------------------
  // Asking the assistant
  // ---------------------------------------------------------------------------------------------

  function AssistRead(resource: string): ApiRequest { ApiRequest(resource, None, Query(Some(ASSIST_ROWS), None)) }

  /** The rows of a readable response. */
  function DataOf(fetched: Fetched): Option<seq<Value>> {
    if fetched.FetchThrew? || !fetched.ok || fetched.json.None? then None
    else
      match Get(fetched.json.value, "data")
      case Some(Arr(items)) => Some(items)
      case _ => None
  }

  predicate SomeThrew(deps: Deps, resources: seq<string>) {
    exists r :: r in resources && deps.apiGet(AssistRead(r)).FetchThrew?
  }

  /** What could be read, in the order asked. */
  function RecordsRead(deps: Deps, resources: seq<string>): seq<BusinessAssistant.Resource> {
    if resources == [] then []
    else
      var data := DataOf(deps.apiGet(AssistRead(resources[0])));
      (if data.Some? then [BusinessAssistant.Resource(resources[0], data.value)] else [])
      + RecordsRead(deps, resources[1..])
  }

  /** What could not, with its status. */
  function SkippedOf(deps: Deps, resources: seq<string>): seq<Skipped> {
    if resources == [] then []
    else
      var fetched := deps.apiGet(AssistRead(resources[0]));
      (if fetched.Response? && DataOf(fetched).None? then [Skipped(resources[0], fetched.status)] else [])
      + SkippedOf(deps, resources[1..])
  }

  function Ask(deps: Deps, args: Value): Outcome {
    match AssistantRequest(args)
    case None => ThrewInvalidParams
    case Some(Question(question, resources)) =>
      if SomeThrew(deps, resources) then ThrewOther
      else
        var records, skipped := RecordsRead(deps, resources), SkippedOf(deps, resources);
        if records == [] then Returned(Tool(AssistantFailed(NothingReadable, skipped), true))
        else
          match deps.askAssistant(question, records)
          case Answer(answer, answered, used) => Returned(Tool(AssistantAnswer(answer, answered, used, skipped), false))
          case AnswerThrew => Returned(Tool(AssistantFailed(CouldNotAnswer, skipped), true))
  }

  // ---------------------------------------------------------------------------------------------
  // Dispatching
  // ---------------------------------------------------------------------------------------------

  predicate IsHexDigit(c: char) { '0' <= c <= '9' || 'a' <= c <= 'f' || 'A' <= c <= 'F' }

  predicate IsUuid(s: string) {
    |s| == 36 && forall i :: 0 <= i < 36 ==>
      if i == 8 || i == 13 || i == 18 || i == 23 then s[i] == '-' else IsHexDigit(s[i])
  }

  function DraftReply(deps: Deps, args: Value): Outcome {
    match GetText(args, "conversation_id")
    case None => ThrewInvalidParams
    case Some(id) =>
      if !IsUuid(id) then ThrewInvalidParams
      else
        match deps.draftReply(id)
        case Drafted(draft) => Returned(Tool(DraftReady(draft), false))
        case DraftThrew => Returned(Tool(DraftFailed, true))
  }

  function ReadRecords(deps: Deps, one: bool, args: Value): Outcome {
    match ReadRequest(one, args)
    case None => ThrewInvalidParams
    case Some(request) =>
      match deps.apiGet(request)
      case FetchThrew => ThrewOther
      case Response(ok, _, _, text) => if text.None? then ThrewOther else Returned(Tool(Text(text.value), !ok))
  }

  datatype ToolName = ListRecords | GetRecord | AskAssistant | DraftWhatsAppReply

  function ToolNamed(name: string): Option<ToolName> {
    if name == "list_records" then Some(ListRecords)
    else if name == "get_record" then Some(GetRecord)
    else if name == "ask_assistant" then Some(AskAssistant)
    else if name == "draft_whatsapp_reply" then Some(DraftWhatsAppReply)
    else None
  }

  function CalledTool(params: Value): Option<ToolName> {
    match GetText(params, "name")
    case None => None
    case Some(name) => ToolNamed(name)
  }

  function CallTool(deps: Deps, params: Value): Outcome {
    var args := ArgumentsOf(params);
    match CalledTool(params)
    case None => ThrewInvalidParams
    case Some(AskAssistant) => Ask(deps, args)
    case Some(DraftWhatsAppReply) => DraftReply(deps, args)
    case Some(ListRecords) => ReadRecords(deps, false, args)
    case Some(GetRecord) => ReadRecords(deps, true, args)
  }

  datatype Method = Initialize | Ping | ListTools | CallTools | ListResources | ListTemplates | ReadResource

  function MethodNamed(name: string): Option<Method> {
    if name == "initialize" then Some(Initialize)
    else if name == "ping" then Some(Ping)
    else if name == "tools/list" then Some(ListTools)
    else if name == "tools/call" then Some(CallTools)
    else if name == "resources/list" then Some(ListResources)
    else if name == "resources/templates/list" then Some(ListTemplates)
    else if name == "resources/read" then Some(ReadResource)
    else None
  }

  function Version(params: Value): string {
    match GetText(params, "protocolVersion")
    case Some(v) => if v in VERSIONS then v else VERSIONS[0]
    case None => VERSIONS[0]
  }

  predicate NamesDocument(params: Value) { GetText(params, "uri") == Some("wonderark://api/openapi.json") }

  function Dispatch(deps: Deps, m: Method, params: Value): Outcome {
    match m
    case Initialize => Returned(Initialized(Version(params)))
    case Ping => Returned(Pong)
    case ListTools => Returned(ToolList)
    case CallTools => CallTool(deps, params)
    case ListResources => Returned(ResourceList)
    case ListTemplates => Returned(TemplateList)
    case ReadResource =>
      if !NamesDocument(params) then ThrewInvalidParams
      else if deps.openApiSpec.None? then ThrewOther
      else Returned(ApiDocument(deps.openApiSpec.value))
  }

  /** A message with an id that is not null asks for a reply. */
  function RequestId(message: Value): Option<Value> {
    match Get(message, "id")
    case Some(id) => if id == Null then None else Some(id)
    case None => None
  }

  function HandleOne(deps: Deps, message: Value): Option<Reply> {
    match (RequestId(message), GetText(message, "method"))
    case (None, _) => None
    case (Some(id), None) => Some(Failed(id, InvalidRequest))
    case (Some(id), Some(name)) =>
      match MethodNamed(name)
      case None => Some(Failed(id, MethodNotFound))
      case Some(m) =>
        match Dispatch(deps, m, Get(message, "params").GetOr(Null))
        case Returned(result) => Some(Succeeded(id, result))
        case ThrewInvalidParams => Some(Failed(id, InvalidParams))
        case ThrewOther => Some(Failed(id, InternalError))
  }

  /** The replies to a batch; what the dependencies answer may differ from message to message. */
  function Replies(deps: nat -> Deps, items: seq<Value>): seq<Reply> {
    if items == [] then []
    else
      var n := |items| - 1;
      var last := HandleOne(deps(n), items[n]);
      Replies(deps, items[..n]) + (if last.Some? then [last.value] else [])
  }

  datatype Body = Nothing | One(reply: Reply) | Many(replies: seq<Reply>)

  function HandleBody(deps: nat -> Deps, body: Value): Body {
    match body
    case Arr(items) => if Replies(deps, items) == [] then Nothing else Many(Replies(deps, items))
    case Obj(_) =>
      var reply := HandleOne(deps(0), body);
      if reply.Some? then One(reply.value) else Nothing
    case _ => One(Failed(Null, InvalidRequest))
  }

  // ---------------------------------------------------------------------------------------------
  // Requests and replies
  // ---------------------------------------------------------------------------------------------

  /** The ids of the messages that ask for a reply, in order. */
  function RequestIds(items: seq<Value>): seq<Value> {
    if items == [] then []
    else
      var id := RequestId(items[|items| - 1]);
      RequestIds(items[..|items| - 1]) + (if id.Some? then [id.value] else [])
  }

  function Ids(replies: seq<Reply>): (ids: seq<Value>)
    ensures |ids| == |replies|
  {
    seq(|replies|, i requires 0 <= i < |replies| => replies[i].id)
  }

  /** A message is answered exactly when it asks for a reply, and under its own id. */
  lemma AnsweredIffAsked(deps: Deps, message: Value)
    ensures match HandleOne(deps, message)
      case None => RequestId(message).None?
      case Some(reply) => RequestId(message) == Some(reply.id)
  {
    hide Get, GetText, MethodNamed, Dispatch;
  }

  /** For every batch and every behaviour of the dependencies, the reply ids are, in order, the ids of the messages
      that carry one that is not null. */
  lemma {:induction false} ReplyIdsMatch(deps: nat -> Deps, items: seq<Value>)
    ensures Ids(Replies(deps, items)) == RequestIds(items)
  {
    hide HandleOne, RequestId;
    if items != [] {
      var n := |items| - 1;
      ReplyIdsMatch(deps, items[..n]);
      AnsweredIffAsked(deps(n), items[n]);
      var last := HandleOne(deps(n), items[n]);
      if last.Some? {
        assert Ids(Replies(deps, items)) == Ids(Replies(deps, items[..n])) + [last.value.id];
      }
    }
  }

  /** Each reply of a batch is the one its message gets on its own: no other message or failure touches it. */
  lemma {:induction false} EachOnItsOwn(deps: nat -> Deps, items: seq<Value>, i: nat)
    requires i < |items| && RequestId(items[i]).Some?
    ensures var replies, k := Replies(deps, items), |RequestIds(items[..i])|;
      k < |replies| && Some(replies[k]) == HandleOne(deps(i), items[i])
  {
    hide HandleOne, RequestId;
    var n := |items| - 1;
    AnsweredIffAsked(deps(n), items[n]);
    if i < n {
      EachOnItsOwn(deps, items[..n], i);
      assert items[..n][..i] == items[..i];
    } else {
      ReplyIdsMatch(deps, items[..n]);
    }
  }

  /** Whatever happens to the dependencies of one message, the batch is answered with the same ids in the same order,
      and every other message gets the same reply. */
  lemma FailureTouchesOneReply(deps: nat -> Deps, deps': nat -> Deps, items: seq<Value>, j: nat)
    requires forall i :: i != j ==> deps(i) == deps'(i)
    ensures var replies, replies' := Replies(deps, items), Replies(deps', items);
      && Ids(replies) == Ids(replies')
      && forall i: nat :: i < |items| && i != j && RequestId(items[i]).Some? ==>
           var k := |RequestIds(items[..i])|;
           k < |replies| && k < |replies'| && replies[k] == replies'[k]
  {
    hide Replies, HandleOne, RequestId;
    ReplyIdsMatch(deps, items);
    ReplyIdsMatch(deps', items);
    forall i: nat | i < |items| && i != j && RequestId(items[i]).Some?
      ensures var k := |RequestIds(items[..i])|;
        k < |Replies(deps, items)| && k < |Replies(deps', items)|
        && Replies(deps, items)[k] == Replies(deps', items)[k]
    {
      EachOnItsOwn(deps, items, i);
      EachOnItsOwn(deps', items, i);
    }
  }

  /** Nothing is sent back exactly for a single message or a batch without any id to answer; an empty batch is one
      such, where section 6 of JSON-RPC 2.0 asks for an Invalid Request error. A body that is neither an object nor
      an array gets that error, with id null. */
  lemma NothingIff(deps: nat -> Deps, body: Value)
    ensures HandleBody(deps, body) == Nothing <==>
      match body
      case Arr(items) => forall m :: m in items ==> RequestId(m).None?
      case Obj(_) => RequestId(body).None?
      case _ => false
    ensures !body.Arr? && !body.Obj? ==> HandleBody(deps, body) == One(Failed(Null, InvalidRequest))
  {
    hide HandleOne, RequestId, Replies;
    match body
    case Arr(items) =>
      ReplyIdsMatch(deps, items);
      NoIdsIff(items);
    case Obj(_) => AnsweredIffAsked(deps(0), body);
    case _ =>
  }

  lemma {:induction false} NoIdsIff(items: seq<Value>)
    ensures RequestIds(items) == [] <==> forall m :: m in items ==> RequestId(m).None?
  {
    hide RequestId;
    if items != [] {
      NoIdsIff(items[..|items| - 1]);
      assert items == items[..|items| - 1] + [items[|items| - 1]];
    }
  }

  // ---------------------------------------------------------------------------------------------
  // Failing dependencies
  // ---------------------------------------------------------------------------------------------

  /** A reply is an object with the protocol's version, the id, and the result or the error. */
  function Envelope(reply: Reply, content: Value): Value {
    match reply
    case Succeeded(id, _) => Obj([Member("jsonrpc", Str("2.0")), Member("id", id), Member("result", content)])
    case Failed(id, _) => Obj([Member("jsonrpc", Str("2.0")), Member("id", id), Member("error", content)])
  }

  /** Exactly one of result and error. */
  lemma ResultOrError(reply: Reply, content: Value)
    ensures var sent := Envelope(reply, content);
      && Get(sent, "id") == Some(reply.id)
      && (Get(sent, "result").Some? <==> reply.Succeeded?)
      && (Get(sent, "error").Some? <==> reply.Failed?)
  {
    var tail := [Member("result", content)];
    var other := [Member("error", content)];
    assert Field(tail, "result") == Some(content) && Field(tail, "error") == None;
    assert Field(other, "error") == Some(content) && Field(other, "result") == None;
    EnvelopeField(reply.id, tail[0], "result");
    EnvelopeField(reply.id, tail[0], "error");
    EnvelopeField(reply.id, other[0], "result");
    EnvelopeField(reply.id, other[0], "error");
  }

  lemma EnvelopeField(id: Value, last: Member, key: string)
    requires key != "jsonrpc" && key != "id"
    ensures var entries := [Member("jsonrpc", Str("2.0")), Member("id", id), last];
      Field(entries, "id") == Some(id) && Field(entries, key) == Field([last], key)
  {
    var entries := [Member("jsonrpc", Str("2.0")), Member("id", id), last];
    assert entries[1..] == [Member("id", id), last] && entries[1..][1..] == [last];
    assert "jsonrpc" != "id" by { assert |"jsonrpc"| != |"id"|; }
  }

  /** A dependency the call depends on threw, or sent text that could not be read. */
  predicate DependencyThrew(deps: Deps, m: Method, params: Value) {
    var args := ArgumentsOf(params);
    match m
    case ReadResource => NamesDocument(params) && deps.openApiSpec.None?
    case CallTools => CalledTool(params).Some? && ToolThrew(deps, CalledTool(params).value, args)
    case _ => false
  }

  predicate ToolThrew(deps: Deps, tool: ToolName, args: Value) {
    match tool
    case AskAssistant =>
      AssistantRequest(args).Some? && SomeThrew(deps, AssistantRequest(args).value.resources)
    case DraftWhatsAppReply => false
    case ListRecords => ReadThrew(deps, ReadRequest(false, args))
    case GetRecord => ReadThrew(deps, ReadRequest(true, args))
  }

  predicate ReadThrew(deps: Deps, request: Option<ApiRequest>) {
    request.Some? && (deps.apiGet(request.value).FetchThrew? || deps.apiGet(request.value).text.None?)
  }

  /** A request is answered with an internal error if and only if a dependency it needed threw: no other failure
      is reported so, and none is swallowed. */
  lemma InternalErrorIff(deps: Deps, message: Value)
    ensures var reply := HandleOne(deps, message);
      reply.Some? && reply.value.Failed? && reply.value.code == InternalError <==>
        && RequestId(message).Some? && GetText(message, "method").Some?
        && MethodNamed(GetText(message, "method").value).Some?
        && DependencyThrew(deps, MethodNamed(GetText(message, "method").value).value,
                           Get(message, "params").GetOr(Null))
  {
    hide Get, GetText, MethodNamed, ToolNamed, AssistantRequest, ReadRequest, SomeThrew, NamesDocument, IsUuid,
      RecordsRead, SkippedOf;
  }

  /** The other codes: an invalid request is one without a method name, a method not found one whose name is not
      served, and invalid parameters are what the served method refuses before it touches a dependency that throws. */
  lemma CodesIff(deps: Deps, message: Value)
    requires RequestId(message).Some?
    ensures HandleOne(deps, message).Some?
    ensures var reply, name := HandleOne(deps, message).value, GetText(message, "method");
      && (reply == Failed(reply.id, InvalidRequest) <==> name.None?)
      && (reply == Failed(reply.id, MethodNotFound) <==> name.Some? && MethodNamed(name.value).None?)
      && (reply == Failed(reply.id, InvalidParams) <==>
            && name.Some? && MethodNamed(name.value).Some?
            && Refuses(MethodNamed(name.value).value, Get(message, "params").GetOr(Null)))
  {
    hide Get, GetText, MethodNamed, ToolNamed, AssistantRequest, ReadRequest, SomeThrew, NamesDocument, IsUuid,
      RecordsRead, SkippedOf;
  }

  /** The parameters a method does not accept, whatever the dependencies do. */
  predicate Refuses(m: Method, params: Value) {
    var args := ArgumentsOf(params);
    match m
    case ReadResource => !NamesDocument(params)
    case CallTools => CalledTool(params).None? || ToolRefuses(CalledTool(params).value, args)
    case _ => false
  }

  predicate ToolRefuses(tool: ToolName, args: Value) {
    match tool
    case AskAssistant => AssistantRequest(args).None?
    case DraftWhatsAppReply =>
      GetText(args, "conversation_id").None? || !IsUuid(GetText(args, "conversation_id").value)
    case ListRecords => ReadRequest(false, args).None?
    case GetRecord => ReadRequest(true, args).None?
  }

  /** A refused or failed tool call never looks like a success. */
  lemma ToolSuccessMeans(deps: Deps, params: Value)
    ensures var outcome, args := CallTool(deps, params), ArgumentsOf(params);
      outcome.Returned? && outcome.result.Tool? && !outcome.result.isError ==>
        match CalledTool(params).value
        case AskAssistant =>
          var q := AssistantRequest(args).value;
          && RecordsRead(deps, q.resources) != []
          && deps.askAssistant(q.question, RecordsRead(deps, q.resources)).Answer?
        case DraftWhatsAppReply => deps.draftReply(GetText(args, "conversation_id").value).Drafted?
        case ListRecords =>
          deps.apiGet(ReadRequest(false, args).value).Response? && deps.apiGet(ReadRequest(false, args).value).ok
        case GetRecord =>
          deps.apiGet(ReadRequest(true, args).value).Response? && deps.apiGet(ReadRequest(true, args).value).ok
  {
    hide Get, GetText, ToolNamed, AssistantRequest, ReadRequest, SomeThrew, IsUuid, RecordsRead, SkippedOf;
  }

  // ---------------------------------------------------------------------------------------------
  // What reaches the API and the assistant
  // ---------------------------------------------------------------------------------------------

  /** What the argument checks let through to the API: a known resource, a short plain id, and paging in bounds. */
  predicate InBounds(request: ApiRequest) {
    && request.resource in MCP_RESOURCES
    && (request.id.Some? ==> IsRecordId(request.id.value))
    && (request.query.limit.Some? ==> 1 <= request.query.limit.value <= MAX_LIMIT)
    && (request.query.offset.Some? ==> 0 <= request.query.offset.value <= MAX_SAFE_INTEGER)
  }

  lemma RequestsInBounds(one: bool, args: Value)
    ensures var request := ReadRequest(one, args);
      request.Some? ==>
        InBounds(request.value) && (request.value.id.Some? <==> one) && (one ==> request.value.query == NO_QUERY)
  {
    hide MCP_RESOURCES, Get, GetText, IsRecordId, PagingOf;
    PagingInBounds(args);
  }

  lemma PagingInBounds(args: Value)
    ensures var query := PagingOf(args, PAGING);
      query.Some? ==>
        && (query.value.limit.Some? ==> 1 <= query.value.limit.value <= MAX_LIMIT)
        && (query.value.offset.Some? ==> 0 <= query.value.offset.value <= MAX_SAFE_INTEGER)
  {
    hide Get, KeyName, Decimal.ReadInt;
    assert PAGING[..1] == [Limit] && PAGING[..1][..0] == [];
    assert PagingOf(args, PAGING) == WithKey(WithKey(Some(NO_QUERY), args, Limit), args, Offset) by {
      assert PagingOf(args, [Limit]) == WithKey(PagingOf(args, []), args, Limit);
    }
  }

  /** An accepted question has 1 to 500 characters and no white space around it, and asks about at least one
      resource, each known and each once. */
  lemma QuestionIsSound(args: Value)
    ensures var q := AssistantRequest(args);
      q.Some? ==>
        && 1 <= |q.value.question| <= MAX_QUESTION_LENGTH && Trimmed(q.value.question)
        && q.value.resources != [] && (forall r :: r in q.value.resources ==> r in MCP_RESOURCES)
        && forall i, j :: 0 <= i < j < |q.value.resources| ==> q.value.resources[i] != q.value.resources[j]
  {
    hide MCP_RESOURCES, Get, GetText, Trim, Trimmed, FeatureRollout.Dedupe;
    TrimTwice(GetText(args, "question").GetOr(""));
    ResourcesAreDistinct();
    match Get(args, "resources")
    case Some(Arr(items)) =>
      if items != [] && AllResources(items) {
        NamesKnown(items);
        assert Names(items)[0] in FeatureRollout.Dedupe(Names(items));
      }
    case _ =>
  }

  lemma NamesKnown(items: seq<Value>)
    requires AllResources(items)
    ensures forall r :: r in Names(items) ==> r in MCP_RESOURCES
  {
    hide MCP_RESOURCES;
    forall r | r in Names(items) ensures r in MCP_RESOURCES {
      var i :| 0 <= i < |items| && Names(items)[i] == r;
      assert items[i] in items;
    }
  }

  lemma ResourcesAreDistinct()
    ensures MCP_RESOURCES != [] && forall i, j :: 0 <= i < j < |MCP_RESOURCES| ==> MCP_RESOURCES[i] != MCP_RESOURCES[j]
  {}

  function RecordNames(records: seq<BusinessAssistant.Resource>): (names: seq<string>)
    ensures |names| == |records|
  {
    seq(|records|, i requires 0 <= i < |records| => records[i].name)
  }

  function SkippedNames(skipped: seq<Skipped>): (names: seq<string>)
    ensures |names| == |skipped|
  {
    seq(|skipped|, i requires 0 <= i < |skipped| => skipped[i].resource)
  }

  /** The resources answered from and those skipped split the ones asked about: each, as often as it is asked, is
      exactly one of the two. */
  lemma {:induction false} ReadOrSkipped(deps: Deps, resources: seq<string>)
    requires !SomeThrew(deps, resources)
    ensures var read, skipped := RecordNames(RecordsRead(deps, resources)), SkippedNames(SkippedOf(deps, resources));
      && multiset(read) + multiset(skipped) == multiset(resources)
      && (forall r :: r in read ==> DataOf(deps.apiGet(AssistRead(r))).Some?)
      && forall r :: r in skipped ==> DataOf(deps.apiGet(AssistRead(r))).None?
  {
    hide DataOf, AssistRead, RecordsRead, SkippedOf, RecordNames, SkippedNames;
    if resources == [] {
      NothingRead(deps);
    } else {
      var r, rest := resources[0], resources[1..];
      assert resources == [r] + rest;
      assert r in resources && forall x :: x in rest ==> x in resources;
      ReadOrSkipped(deps, rest);
      ReadOrSkippedFirst(deps, resources);
    }
  }

  lemma NothingRead(deps: Deps)
    ensures RecordNames(RecordsRead(deps, [])) == [] && SkippedNames(SkippedOf(deps, [])) == []
  {}

  lemma RecordNamesSum(a: seq<BusinessAssistant.Resource>, b: seq<BusinessAssistant.Resource>)
    ensures RecordNames(a + b) == RecordNames(a) + RecordNames(b)
  {}

  lemma SkippedNamesSum(a: seq<Skipped>, b: seq<Skipped>)
    ensures SkippedNames(a + b) == SkippedNames(a) + SkippedNames(b)
  {}

  lemma ReadOrSkippedFirst(deps: Deps, resources: seq<string>)
    requires resources != [] && deps.apiGet(AssistRead(resources[0])).Response?
    ensures var r, rest := resources[0], resources[1..];
      var read, skipped := RecordNames(RecordsRead(deps, rest)), SkippedNames(SkippedOf(deps, rest));
      var readable := DataOf(deps.apiGet(AssistRead(r))).Some?;
      && RecordNames(RecordsRead(deps, resources)) == (if readable then [r] + read else [] + read)
      && SkippedNames(SkippedOf(deps, resources)) == (if readable then [] + skipped else [r] + skipped)
  {
    hide DataOf, AssistRead, RecordNames, SkippedNames;
    var r, rest := resources[0], resources[1..];
    var fetched := deps.apiGet(AssistRead(r));
    var data := DataOf(fetched);
    var record := if data.Some? then [BusinessAssistant.Resource(r, data.value)] else [];
    var skip := if data.None? then [Skipped(r, fetched.status)] else [];
    RecordNamesSum(record, RecordsRead(deps, rest));
    SkippedNamesSum(skip, SkippedOf(deps, rest));
    OneName(r, data, fetched.status);
  }

  lemma OneName(r: string, data: Option<seq<Value>>, status: int)
    ensures RecordNames(if data.Some? then [BusinessAssistant.Resource(r, data.value)] else [])
         == if data.Some? then [r] else []
    ensures SkippedNames(if data.None? then [Skipped(r, status)] else []) == if data.None? then [r] else []
  {}

  /** Every answer and every refusal of the assistant reports as skipped exactly the resources it was asked about and
      could not read; and an answer names as sources only resources it read, when the assistant itself does. */
  lemma AnswerAccountsForAll(deps: Deps, args: Value)
    requires forall question, records :: deps.askAssistant(question, records).Answer? ==>
      forall r :: r in deps.askAssistant(question, records).usedResources ==> r in RecordNames(records)
    ensures var outcome := Ask(deps, args);
      outcome.Returned? ==>
        && AssistantRequest(args).Some? && outcome.result.Tool?
        && Accounts(deps, AssistantRequest(args).value.resources, outcome.result.content)
  {
    hide AssistantRequest, DataOf, AssistRead, RecordsRead, SkippedOf;
    if AssistantRequest(args).Some? {
      var resources := AssistantRequest(args).value.resources;
      if !SomeThrew(deps, resources) {
        ReadOrSkipped(deps, resources);
      }
    }
  }

  ghost predicate Accounts(deps: Deps, resources: seq<string>, content: Content) {
    var read := RecordNames(RecordsRead(deps, resources));
    match content
    case AssistantAnswer(_, _, sources, skipped) =>
      && multiset(read) + multiset(SkippedNames(skipped)) == multiset(resources)
      && forall r :: r in sources ==> r in read
    case AssistantFailed(why, skipped) =>
      && multiset(read) + multiset(SkippedNames(skipped)) == multiset(resources)
      && (why == NothingReadable <==> read == [])
    case _ => false
  }

  lemma ResourcesArePlain()
    ensures forall r :: r in MCP_RESOURCES ==> '<' !in r && '\n' !in r
  {
    forall i | 0 <= i < |MCP_RESOURCES| ensures '<' !in MCP_RESOURCES[i] && '\n' !in MCP_RESOURCES[i] {}
  }

  lemma {:induction false} ReadAreAsked(deps: Deps, resources: seq<string>)
    ensures forall r :: r in RecordsRead(deps, resources) ==> r.name in resources
  {
    hide DataOf, AssistRead;
    if resources != [] {
      ReadAreAsked(deps, resources[1..]);
      assert resources == [resources[0]] + resources[1..];
    }
  }

  /** Whatever an agent asks and whatever the API answers, the prompt made of it opens and closes the records block
      once each, and the question in it is the one accepted: the cut to 500 characters on the way changes nothing. */
  lemma AgentPromptHasOneBlock(deps: Deps, args: Value)
    requires AssistantRequest(args).Some?
    ensures var q := AssistantRequest(args).value;
      var prompt := BusinessAssistant.Prompt(q.question, RecordsRead(deps, q.resources));
      && Trim(q.question) == q.question && |q.question| <= MAX_QUESTION_LENGTH
      && BusinessAssistant.OccursOnce(prompt, BusinessAssistant.OPEN)
      && BusinessAssistant.OccursOnce(prompt, BusinessAssistant.CLOSE)
  {
    hide AssistantRequest, RecordsRead, BusinessAssistant.Prompt, MCP_RESOURCES, Trim, BusinessAssistant.OccursOnce;
    var q := AssistantRequest(args).value;
    AcceptedQuestion(args);
    RecordsArePlain(deps, args);
    BusinessAssistant.PromptTagsOccurOnce(q.question, RecordsRead(deps, q.resources));
  }

  lemma AcceptedQuestion(args: Value)
    requires AssistantRequest(args).Some?
    ensures var question := AssistantRequest(args).value.question;
      Trim(question) == question && |question| <= MAX_QUESTION_LENGTH
  {
    hide AssistantRequest, MCP_RESOURCES, Trim, Trimmed;
    QuestionIsSound(args);
    TrimKeepsTrimmed(AssistantRequest(args).value.question);
  }

  lemma RecordsArePlain(deps: Deps, args: Value)
    requires AssistantRequest(args).Some?
    ensures forall r :: r in RecordsRead(deps, AssistantRequest(args).value.resources) ==>
      '<' !in r.name && '\n' !in r.name
  {
    hide AssistantRequest, RecordsRead, MCP_RESOURCES, Trimmed;
    var resources := AssistantRequest(args).value.resources;
    QuestionIsSound(args);
    ReadAreAsked(deps, resources);
    ResourcesArePlain();
    forall r | r in RecordsRead(deps, resources) ensures '<' !in r.name && '\n' !in r.name {
      assert r.name in resources && r.name in MCP_RESOURCES;
    }
  }

  /** And that prompt can be read back: the question accepted, and for each resource read, in order, its name, the rows
      shown and how many were left out. */
  lemma AgentPromptReadsBack(deps: Deps, args: Value)
    requires AssistantRequest(args).Some?
    requires var records := RecordsRead(deps, AssistantRequest(args).value.resources);
      records != [] && BusinessAssistant.Printable(records)
    ensures var q := AssistantRequest(args).value;
      var records := RecordsRead(deps, q.resources);
      var shown := BusinessAssistant.Shown(records, 0, BusinessAssistant.MAX_RECORDS_CHARS);
      && PromptReader.Fits(records, shown)
      && PromptReader.ReadPrompt(BusinessAssistant.Prompt(q.question, records))
         == Some((q.question, PromptReader.Sections(records, shown)))
  {
    hide AssistantRequest, RecordsRead, BusinessAssistant.Prompt, MCP_RESOURCES, BusinessAssistant.Shown,
      BusinessAssistant.Printable, PromptReader.ReadPrompt, PromptReader.Sections, PromptReader.Fits;
    var q := AssistantRequest(args).value;
    RecordsArePlain(deps, args);
    PromptReader.PromptReadsBack(q.question, RecordsRead(deps, q.resources));
  }
}
