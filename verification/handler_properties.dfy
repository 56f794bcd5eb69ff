/** Properties of single requests and of a request followed by another. */
module HandlerProperties {
  import opened Wrappers
  import opened Js
  import opened Handler

  /** Routing reads `routeKey` only: the HTTP method never changes the outcome. */
  lemma MethodIsIgnored(req: Request, httpMethod: string, store: Store, freshId: string, now: string, storeFault: Option<Thrown>)
    ensures Handle(req.(httpMethod := httpMethod), store, freshId, now, storeFault) == Handle(req, store, freshId, now, storeFault)
  {
  }

  /**
   * A catch-all API Gateway route delivers routeKey `$default`, which the
   * handler answers with "Route not found." whatever the method and body.
   */
  lemma DefaultRouteIsNotFound(req: Request, store: Store, freshId: string, now: string, storeFault: Option<Thrown>)
    requires req.routeKey == "$default"
    ensures Handle(req, store, freshId, now, storeFault) == Outcome(ErrorResponse(404, RouteNotFound), store, [])
  {
  }

  /** A read changes nothing, so repeating it gives the same outcome. */
  lemma ReadIsIdempotent(req: Request, store: Store, freshId: string, now: string,
                         freshId': string, now': string, storeFault: Option<Thrown>)
    requires req.routeKey == GetRoute
    ensures var o := Handle(req, store, freshId, now, storeFault);
      o.store == store && Handle(req, o.store, freshId', now', storeFault) == o
  {
  }

  /** The handler keeps every note filed under its own id with truthy content. */
  lemma HandleKeepsConsistent(req: Request, store: Store, freshId: string, now: string, storeFault: Option<Thrown>)
    requires Consistent(store)
    ensures Consistent(Handle(req, store, freshId, now, storeFault).store)
  {
  }

  /** With an unused fresh id, no request removes or alters a stored note. */
  lemma HandleKeepsNotes(req: Request, store: Store, freshId: string, now: string, storeFault: Option<Thrown>)
    requires freshId !in store
    ensures Keeps(store, Handle(req, store, freshId, now, storeFault).store)
  {
  }

  /**
   * The put is unconditional: if the generated id is already taken, a
   * successful create replaces the note stored under it (last write wins),
   * and the store keeps the same set of ids.
   */
  lemma CreateOverwritesTakenId(req: Request, store: Store, freshId: string, now: string)
    requires freshId in store
    requires Handle(req, store, freshId, now, None).response.statusCode == 201
    ensures var o := Handle(req, store, freshId, now, None);
      && o.store[freshId] == o.response.body.note
      && o.store.Keys == store.Keys
      && |o.store| == |store|
      && (store[freshId] != o.response.body.note ==> !Keeps(store, o.store))
  {
  }

  /**
   * A concrete collision: the note filed under "n1" is replaced by the
   * create. So `HandleKeepsNotes` really needs its unused-id premise.
   */
  lemma CollidingIdExample()
    ensures var first := Note("n1", JStr("first"), "t1");
      var body := Text("{\"content\":\"second\"}", Parsed(JObj(map["content" := JStr("second")])));
      var o := Handle(Request("POST", PostRoute, None, body), map["n1" := first], "n1", "t2", None);
      o.response.statusCode == 201 && o.store == map["n1" := Note("n1", JStr("second"), "t2")] &&
      !Keeps(map["n1" := first], o.store)
  {
    var first := Note("n1", JStr("first"), "t1");
    var body := Text("{\"content\":\"second\"}", Parsed(JObj(map["content" := JStr("second")])));
    assert body.text != "";
    assert ReadContent(body) == Success(Some(JStr("second")));
    var o := Handle(Request("POST", PostRoute, None, body), map["n1" := first], "n1", "t2", None);
    assert o.store["n1"] != first;
  }

  /**
   * The top-level catch: a request answers 500 exactly when something was
   * thrown. On the create route that is a failed parse or read of the body,
   * or a failed put of truthy content; on the read route, a failed get of a
   * non-empty id. The message is the thrown value's (or "Internal Server
   * Error" for a non-Error), and a 500 never changes the store. A fault
   * from the body happens before any store call.
   */
  lemma FaultIsServerError(req: Request, store: Store, freshId: string, now: string, storeFault: Option<Thrown>)
    ensures var o := Handle(req, store, freshId, now, storeFault);
      var content := ReadContent(req.body);
      var id := PathId(req.pathParameters);
      && (o.response.statusCode == 500 <==>
            || (req.routeKey == PostRoute && (content.Failure? || (Truthy(content.value) && storeFault.Some?)))
            || (req.routeKey == GetRoute && id.Some? && id.value != "" && storeFault.Some?))
      && (o.response.statusCode == 500 ==> o.store == store && o.response.headers == map[])
      && (req.routeKey == PostRoute && content.Failure? ==>
            o.response.body == Message(FaultMessage(content.error)) && o.ops == [])
      && (req.routeKey == PostRoute && content.Success? && Truthy(content.value) && storeFault.Some? ==>
            o.response.body == Message(FaultMessage(storeFault.value)) && |o.ops| == 1 && o.ops[0].Put?)
      && (req.routeKey == GetRoute && id.Some? && id.value != "" && storeFault.Some? ==>
            o.response.body == Message(FaultMessage(storeFault.value)) && o.ops == [Get(id.value)])
  {
  }

  /**
   * Any body object whose own `content` field is truthy is accepted: the
   * create answers 201 and stores that field's value unchanged, whatever its
   * JSON type.
   */
  lemma TruthyContentIsAccepted(req: Request, store: Store, freshId: string, now: string)
    requires req.routeKey == PostRoute && req.body.Text? && req.body.text != ""
    requires req.body.parse.Parsed? && req.body.parse.value.JObj?
    requires "content" in req.body.parse.value.fields && Truthy(Some(req.body.parse.value.fields["content"]))
    ensures var note := Note(freshId, req.body.parse.value.fields["content"], now);
      var o := Handle(req, store, freshId, now, None);
      o.response == Response(201, JsonHeaders, NoteJson(note)) && o.store == store[freshId := note]
  {
  }

  /**
   * Create then read: the id a successful create returns, requested by a
   * read that reaches the store, yields 200 and the very note created.
   */
  lemma CreatedNoteIsReadable(post: Request, get: Request, store: Store, freshId: string, now: string,
                              freshId': string, now': string)
    requires post.routeKey == PostRoute
    requires Handle(post, store, freshId, now, None).response.statusCode == 201
    requires freshId != ""
    requires get.routeKey == GetRoute && get.pathParameters == Some(map["id" := freshId])
    ensures var created := Handle(post, store, freshId, now, None);
      Handle(get, created.store, freshId', now', None).response ==
        Response(200, JsonHeaders, created.response.body)
  {
  }
}
