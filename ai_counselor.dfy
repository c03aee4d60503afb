/** The `ai-counselor` edge function: the CORS preflight, the required fields, the
    signed-in user, the prompt sent to the chat model (system prompt, the client's history
    when it is an array, the query), the two `chat_messages` rows it records, and the JSON
    reply or error. */
module AiCounselor {
  import opened Wrappers
  import opened Conversation

  const SystemPrompt: string := "You are an expert AI Career and Education Counselor..."

  const MissingFields: string := "Query and session_id are required."
  const NoUser: string := "User not found."

  /** `corsHeaders`. */
  const CorsHeaders: map<string, string> := map[
    "Access-Control-Allow-Origin" := "*",
    "Access-Control-Allow-Headers" := "authorization, x-client-info, apikey, content-type"
  ]

  /** The headers of every JSON response: the CORS headers and the content type. */
  const JsonHeaders: map<string, string> := CorsHeaders["Content-Type" := "application/json"]

  /** The `history` field: absent or null, present but not an array, or an array of
      messages. */
  datatype History = Missing | NotArray | ArrayOf(items: seq<Message>)

  /** The JSON body: `query` and `session_id` as strings when present. */
  datatype RequestBody = RequestBody(query: Option<string>, history: History, sessionId: Option<string>)

  /** The request: its HTTP method and its body as `req.json()` reads it, or the message of the
      error reading it throws. */
  datatype Request = Request(verb: string, body: Result<RequestBody>)

  datatype ResponseBody = Text(text: string) | ReplyJson(reply: string) | ErrorJson(error: string)

  datatype Response = Response(status: int, headers: map<string, string>, body: ResponseBody)

  /** One `chat_messages` row the handler inserts. */
  datatype ChatRow = ChatRow(userId: string, sessionId: string, role: Role, content: string)

  /** JavaScript truthiness of an optional string: present and non-empty. */
  predicate Truthy(s: Option<string>) {
    s.Some? && s.value != []
  }

  /** The prompt: the system message, then the history only when it is an array, then the
      user's query. */
  function PromptMessages(query: string, history: History): (r: seq<Message>)
    ensures |r| == if history.ArrayOf? then |history.items| + 2 else 2
    ensures r[0] == Message(System, SystemPrompt)
    ensures r[|r| - 1] == Message(User, query)
    ensures history.ArrayOf? ==> r[1..|r| - 1] == history.items
  {
    [Message(System, SystemPrompt)]
      + (if history.ArrayOf? then history.items else [])
      + [Message(User, query)]
  }

  /** Only an array history reaches the model: any other value gives the same prompt as a
      missing one. */
  lemma NonArrayHistoryIgnored(query: string, history: History)
    requires !history.ArrayOf?
    ensures PromptMessages(query, history) == PromptMessages(query, Missing)
  {
  }

  /** The error response: status 400 with `{error: message}`. */
  function ErrorResponse(message: string): (r: Response)
    ensures r.status == 400 && r.body == ErrorJson(message) && r.headers == JsonHeaders
  {
    Response(400, JsonHeaders, ErrorJson(message))
  }

  /** The `serve` handler. `user` is the id of the user the request's token belongs to,
      and `complete` the chat model's reply to a prompt, or the message of the error the
      call throws. The inserts' own errors are not looked at, so they do not appear. */
  method Serve(req: Request, user: Option<string>, complete: seq<Message> -> Result<string>)
    returns (resp: Response, rows: seq<ChatRow>)
    ensures req.verb == "OPTIONS" ==> resp == Response(200, CorsHeaders, Text("ok")) && rows == []
    ensures req.verb != "OPTIONS" && req.body.Err? ==>
      resp == ErrorResponse(req.body.message) && rows == []
    ensures req.verb != "OPTIONS" && req.body.Ok? ==>
      var b := req.body.value;
      && (!Truthy(b.query) || !Truthy(b.sessionId) ==> resp == ErrorResponse(MissingFields) && rows == [])
      && (Truthy(b.query) && Truthy(b.sessionId) && user.None? ==> resp == ErrorResponse(NoUser) && rows == [])
      && (Truthy(b.query) && Truthy(b.sessionId) && user.Some? ==>
            var asked := ChatRow(user.value, b.sessionId.value, User, b.query.value);
            match complete(PromptMessages(b.query.value, b.history))
            case Err(m) => resp == ErrorResponse(m) && rows == [asked]
            case Ok(reply) =>
              && resp == Response(200, JsonHeaders, ReplyJson(reply))
              && rows == [asked, ChatRow(user.value, b.sessionId.value, Assistant, reply)])
    ensures resp.status == 200 <==> req.verb == "OPTIONS" || |rows| == 2
  {
    rows := [];
    if req.verb == "OPTIONS" {
      return Response(200, CorsHeaders, Text("ok")), rows;
    }
    if req.body.Err? {
      return ErrorResponse(req.body.message), rows;
    }
    var body := req.body.value;
    if !Truthy(body.query) || !Truthy(body.sessionId) {
      return ErrorResponse(MissingFields), rows;
    }
    var query, sessionId := body.query.value, body.sessionId.value;
    if user.None? {
      return ErrorResponse(NoUser), rows;
    }
    rows := rows + [ChatRow(user.value, sessionId, User, query)];
    var messages := [Message(System, SystemPrompt)];
    if body.history.ArrayOf? {
      messages := messages + body.history.items;
    }
    messages := messages + [Message(User, query)];
    assert messages == PromptMessages(query, body.history);
    var completion := complete(messages);
    if completion.Err? {
      return ErrorResponse(completion.message), rows;
    }
    var reply := completion.value;
    rows := rows + [ChatRow(user.value, sessionId, Assistant, reply)];
    resp := Response(200, JsonHeaders, ReplyJson(reply));
  }
}
