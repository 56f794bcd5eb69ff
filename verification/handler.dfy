/**
 * The Lambda request handler of the notes service, as a pure function over
 * an abstract key-value store. The UUID generator, the clock and the
 * outcome of the store call are parameters; the store is a map from note
 * id to note.
 */
module Handler {
  import opened Wrappers
  import opened Js

  /** A persisted note. `content` is whatever truthy value the caller sent. */
  datatype Note = Note(id: string, content: Value, createdAt: string)

  /** The notes table, keyed by note id. */
  type Store = map<string, Note>

  /** One call the handler makes to the store. */
  datatype StoreOp = Put(item: Note) | Get(key: string)

  /**
   * The raw request body: absent, or text together with what `JSON.parse`
   * makes of it (a value, or a SyntaxError carrying its message).
   */
  datatype Parse = Malformed(error: string) | Parsed(value: Value)
  datatype Body = Absent | Text(text: string, parse: Parse)

  /** The parts of an API Gateway (HTTP API, payload 2.0) event the handler reads. */
  datatype Request = Request(
    httpMethod: string,
    routeKey: string,
    pathParameters: Option<map<string, string>>,
    body: Body)

  /** What the response body serialises: an error message or a note. */
  datatype Payload = Message(message: string) | NoteJson(note: Note)

  datatype Response = Response(statusCode: int, headers: map<string, string>, body: Payload)

  /** The response, the store after the request, and the store calls made. */
  datatype Outcome = Outcome(response: Response, store: Store, ops: seq<StoreOp>)

  const PostRoute: string := "POST /notes"
  const GetRoute: string := "GET /notes/{id}"

  const MissingContent: string := "Missing 'content' in request body."
  const MissingId: string := "Note ID is missing in the path."
  const NoteNotFound: string := "Note not found."
  const RouteNotFound: string := "Route not found."
  const InternalError: string := "Internal Server Error"

  const JsonHeaders: map<string, string> := map["Content-Type" := "application/json"]

  /**
   * The store invariant the handler maintains: every note is filed under its
   * own id and carries truthy content.
   */
  ghost predicate Consistent(s: Store) {
    forall k :: k in s ==> s[k].id == k && Truthy(Some(s[k].content))
  }

  /** Every note of `s` is still in `s'`, unchanged. */
  ghost predicate Keeps(s: Store, s': Store) {
    forall k :: k in s ==> k in s' && s'[k] == s[k]
  }

  /** A response carrying `{"message": ...}` and no headers. */
  function ErrorResponse(status: int, message: string): Response {
    Response(status, map[], Message(message))
  }

  /** The message the top-level catch reports for a thrown value. */
  function FaultMessage(t: Thrown): string {
    match t
    case ErrorObject(message) => message
    case OtherValue => InternalError
  }

  /** The top-level catch: any fault becomes a 500 carrying the fault's message. */
  function ServerError(t: Thrown): Response {
    ErrorResponse(500, FaultMessage(t))
  }

  /**
   * `JSON.parse(event.body || "{}")`: an absent or empty body parses as the
   * empty object; any other text parses as it does.
   */
  function ParseBody(b: Body): Parse {
    match b
    case Absent => Parsed(JObj(map[]))
    case Text(text, parse) => if text == "" then Parsed(JObj(map[])) else parse
  }

  /** `event.pathParameters?.id`. */
  function PathId(pathParameters: Option<map<string, string>>): Option<string> {
    match pathParameters
    case None => None
    case Some(params) => if "id" in params then Some(params["id"]) else None
  }

  /**
   * `JSON.parse(event.body || "{}").content`: the value read, or what was
   * thrown on the way (a SyntaxError from the parse, or a TypeError when the
   * body is JSON `null`).
   */
  function ReadContent(b: Body): (r: Result<Option<Value>, Thrown>)
    ensures r.Failure? <==> ParseBody(b).Malformed? || ParseBody(b) == Parsed(JNull)
    ensures ParseBody(b).Malformed? ==> r == Failure(ErrorObject(ParseBody(b).error))
    ensures ParseBody(b) == Parsed(JNull) ==> r == Failure(ErrorObject(NullContentMessage))
    ensures r.Success? && r.value.Some? ==>
      ParseBody(b).Parsed? && ParseBody(b).value.JObj? && "content" in ParseBody(b).value.fields &&
      ParseBody(b).value.fields["content"] == r.value.value
    // Any non-null value is read without a fault; the read yields a value
    // exactly when the body is an object with its own `content` field.
    ensures ParseBody(b).Parsed? && ParseBody(b).value != JNull ==>
      r.Success? && (r.value.Some? <==> ParseBody(b).value.JObj? && "content" in ParseBody(b).value.fields)
    // An absent or empty body reads no content.
    ensures b.Absent? || b.text == "" ==> r == Success(None)
  {
    match ParseBody(b)
    case Malformed(error) => Failure(ErrorObject(error))
    case Parsed(v) => ContentOf(v)
  }

  /**
   * `POST /notes`: reject a falsy `content` with 400, else build the note
   * from the fresh id and the current time, put it, and answer 201 with the
   * note. A parse fault, a `null` body and a failed put all end in the
   * top-level catch (500).
   */
  function Post(body: Body, store: Store, freshId: string, now: string, storeFault: Option<Thrown>): (o: Outcome)
    // Status codes the create route can answer with.
    ensures o.response.statusCode in {201, 400, 500}
    // 400: the content was read and is falsy; nothing is written.
    ensures o.response.statusCode == 400 <==> ReadContent(body).Success? && !Truthy(ReadContent(body).value)
    ensures o.response.statusCode == 400 ==>
      o.response == ErrorResponse(400, MissingContent) && o.store == store && o.ops == []
    // 201: truthy content and the put succeeded; exactly one write of the new note.
    ensures o.response.statusCode == 201 <==>
      ReadContent(body).Success? && Truthy(ReadContent(body).value) && storeFault.None?
    ensures o.response.statusCode == 201 ==>
      var note := Note(freshId, ReadContent(body).value.value, now);
      && o.response == Response(201, JsonHeaders, NoteJson(note))
      && o.store == store[freshId := note]
      && o.ops == [Put(note)]
      && Truthy(Some(note.content))
    // 500 from reading the body: nothing was written or attempted.
    ensures ReadContent(body).Failure? ==>
      o.response == ServerError(ReadContent(body).error) && o.store == store && o.ops == []
    // 500 from a failed put: the put was attempted, the store is unchanged.
    ensures ReadContent(body).Success? && Truthy(ReadContent(body).value) && storeFault.Some? ==>
      && o.response == ServerError(storeFault.value)
      && o.store == store
      && o.ops == [Put(Note(freshId, ReadContent(body).value.value, now))]
  {
    match ReadContent(body)
    case Failure(t) => Outcome(ServerError(t), store, [])
    case Success(content) =>
      if !Truthy(content) then
        Outcome(ErrorResponse(400, MissingContent), store, [])
      else
        var note := Note(freshId, content.value, now);
        match storeFault
        case Some(t) => Outcome(ServerError(t), store, [Put(note)])
        case None => Outcome(Response(201, JsonHeaders, NoteJson(note)), store[freshId := note], [Put(note)])
  }

  /**
   * `GET /notes/{id}`: reject an absent or empty id with 400, else get the
   * item; 404 if there is none, 200 with the item verbatim if there is.
   * A failed get ends in the top-level catch (500). The store never changes.
   */
  function Lookup(pathParameters: Option<map<string, string>>, store: Store, storeFault: Option<Thrown>): (o: Outcome)
    ensures o.store == store
    ensures o.response.statusCode in {200, 400, 404, 500}
    // 400: no id, or an empty one; no store call.
    ensures o.response.statusCode == 400 <==> PathId(pathParameters).None? || PathId(pathParameters).value == ""
    ensures o.response.statusCode == 400 ==> o.response == ErrorResponse(400, MissingId) && o.ops == []
    // Past validation exactly one get of that id.
    ensures o.response.statusCode != 400 ==> o.ops == [Get(PathId(pathParameters).value)]
    // 404: the get succeeded and found nothing.
    ensures o.response.statusCode == 404 <==>
      o.response.statusCode != 400 && storeFault.None? && PathId(pathParameters).value !in store
    ensures o.response.statusCode == 404 ==> o.response == ErrorResponse(404, NoteNotFound)
    // 200: the get found the note, which is returned verbatim.
    ensures o.response.statusCode == 200 <==>
      o.response.statusCode != 400 && storeFault.None? && PathId(pathParameters).value in store
    ensures o.response.statusCode == 200 ==>
      o.response == Response(200, JsonHeaders, NoteJson(store[PathId(pathParameters).value]))
    // 500: the get itself failed.
    ensures o.response.statusCode == 500 <==> o.response.statusCode != 400 && storeFault.Some?
    ensures o.response.statusCode == 500 ==> o.response == ServerError(storeFault.value)
  {
    match PathId(pathParameters)
    case None => Outcome(ErrorResponse(400, MissingId), store, [])
    case Some(id) =>
      if id == "" then
        Outcome(ErrorResponse(400, MissingId), store, [])
      else
        match storeFault
        case Some(t) => Outcome(ServerError(t), store, [Get(id)])
        case None =>
          if id !in store then Outcome(ErrorResponse(404, NoteNotFound), store, [Get(id)])
          else Outcome(Response(200, JsonHeaders, NoteJson(store[id])), store, [Get(id)])
  }

  /**
   * The handler: route on `routeKey` alone (the HTTP method is read but never
   * used), and answer every other route with 404.
   */
  function Handle(req: Request, store: Store, freshId: string, now: string, storeFault: Option<Thrown>): (o: Outcome)
    ensures o.response.statusCode in {200, 201, 400, 404, 500}
    // At most one store call, and only a successful create changes the store.
    ensures |o.ops| <= 1
    ensures o.response.statusCode != 201 ==> o.store == store
    ensures o.response.statusCode == 201 ==>
      && req.routeKey == PostRoute
      && o.response.headers == JsonHeaders
      && o.response.body.NoteJson?
      && o.response.body.note.id == freshId
      && o.response.body.note.createdAt == now
      && Truthy(Some(o.response.body.note.content))
      && o.store == store[freshId := o.response.body.note]
      && o.ops == [Put(o.response.body.note)]
    // Unknown routes: 404 "Route not found." and no store call; the known
    // routes never produce that response.
    ensures o.response == ErrorResponse(404, RouteNotFound) <==> req.routeKey != PostRoute && req.routeKey != GetRoute
    ensures req.routeKey != PostRoute && req.routeKey != GetRoute ==> o.ops == []
    // Every error answer carries a message and no headers.
    ensures o.response.statusCode !in {200, 201} ==> o.response.body.Message? && o.response.headers == map[]
  {
    if req.routeKey == PostRoute then
      Post(req.body, store, freshId, now, storeFault)
    else if req.routeKey == GetRoute then
      Lookup(req.pathParameters, store, storeFault)
    else
      Outcome(ErrorResponse(404, RouteNotFound), store, [])
  }
}
