/**
 * Successive invocations of the handler against one shared store: the id
 * generator, the clock and the store's health are supplied per call.
 */
module Sessions {
  import opened Wrappers
  import opened Js
  import opened Handler

  /** One invocation: the request and what the environment supplies for it. */
  datatype Call = Call(req: Request, freshId: string, now: string, storeFault: Option<Thrown>)

  /** The responses, in call order, and the store left behind. */
  datatype Trace = Trace(responses: seq<Response>, store: Store)

  /** Serves the calls one after another, threading the store through. */
  function Serve(store: Store, calls: seq<Call>): (t: Trace)
    ensures |t.responses| == |calls|
    // A created note always carries the id generated for its own call.
    ensures forall i :: 0 <= i < |calls| && t.responses[i].statusCode == 201 ==>
      calls[i].req.routeKey == PostRoute && t.responses[i].body.NoteJson? &&
      t.responses[i].body.note.id == calls[i].freshId && t.responses[i].body.note.createdAt == calls[i].now
    decreases |calls|
  {
    if |calls| == 0 then Trace([], store)
    else
      var c := calls[0];
      var o := Handle(c.req, store, c.freshId, c.now, c.storeFault);
      var rest := Serve(o.store, calls[1..]);
      Trace([o.response] + rest.responses, rest.store)
  }

  /** The number of 201 responses: the notes created. */
  function CountCreated(responses: seq<Response>): (n: nat)
    ensures n <= |responses|
    ensures n == 0 <==> forall i :: 0 <= i < |responses| ==> responses[i].statusCode != 201
  {
    if |responses| == 0 then 0
    else (if responses[0].statusCode == 201 then 1 else 0) + CountCreated(responses[1..])
  }

  /** The generated ids are unused in the initial store and pairwise distinct. */
  ghost predicate FreshIds(store: Store, calls: seq<Call>) {
    && (forall i :: 0 <= i < |calls| ==> calls[i].freshId !in store)
    && (forall i, j :: 0 <= i < j < |calls| ==> calls[i].freshId != calls[j].freshId)
  }

  lemma FreshIdsTail(store: Store, calls: seq<Call>, store': Store)
    requires |calls| > 0 && FreshIds(store, calls)
    requires store'.Keys <= store.Keys + {calls[0].freshId}
    ensures FreshIds(store', calls[1..])
  {
    forall i | 0 <= i < |calls[1..]|
      ensures calls[1..][i].freshId !in store'
    {
      assert calls[1..][i] == calls[i + 1];
    }
    forall i, j | 0 <= i < j < |calls[1..]|
      ensures calls[1..][i].freshId != calls[1..][j].freshId
    {
      assert calls[1..][i] == calls[i + 1] && calls[1..][j] == calls[j + 1];
    }
  }

  /** Every session keeps the store consistent. */
  lemma {:induction false} ServeKeepsConsistent(store: Store, calls: seq<Call>)
    requires Consistent(store)
    ensures Consistent(Serve(store, calls).store)
    decreases |calls|
  {
    if |calls| > 0 {
      var c := calls[0];
      var o := Handle(c.req, store, c.freshId, c.now, c.storeFault);
      assert Consistent(o.store);
      ServeKeepsConsistent(o.store, calls[1..]);
    }
  }

  /** A session in which nothing was created leaves the store as it was. */
  lemma {:induction false} ServeWithoutCreatesIsReadOnly(store: Store, calls: seq<Call>)
    ensures CountCreated(Serve(store, calls).responses) == 0 ==> Serve(store, calls).store == store
    decreases |calls|
  {
    if |calls| > 0 {
      var c := calls[0];
      var o := Handle(c.req, store, c.freshId, c.now, c.storeFault);
      var t := Serve(store, calls);
      assert t.responses[1..] == Serve(o.store, calls[1..]).responses;
      ServeWithoutCreatesIsReadOnly(o.store, calls[1..]);
    }
  }

  /**
   * With fresh, distinct ids nothing stored is ever lost or altered, and
   * the store grows by exactly one note per 201 response.
   */
  lemma {:induction false} ServeGrowth(store: Store, calls: seq<Call>)
    requires FreshIds(store, calls)
    ensures Keeps(store, Serve(store, calls).store)
    ensures |Serve(store, calls).store| == |store| + CountCreated(Serve(store, calls).responses)
    decreases |calls|
  {
    if |calls| > 0 {
      var c := calls[0];
      var o := Handle(c.req, store, c.freshId, c.now, c.storeFault);
      var t := Serve(store, calls);
      assert o.store.Keys <= store.Keys + {c.freshId};
      FreshIdsTail(store, calls, o.store);
      ServeGrowth(o.store, calls[1..]);
      assert t.responses[1..] == Serve(o.store, calls[1..]).responses;
      if o.response.statusCode == 201 {
        assert c.freshId !in store;
        assert |o.store| == |store| + 1;
      }
    }
  }

  /**
   * With fresh, distinct ids every note a session created is in the final
   * store under its id, exactly as the 201 response returned it.
   */
  lemma {:induction false} ServeKeepsCreated(store: Store, calls: seq<Call>)
    requires FreshIds(store, calls)
    ensures var t := Serve(store, calls);
      forall i :: 0 <= i < |calls| && t.responses[i].statusCode == 201 ==>
        calls[i].freshId in t.store && t.store[calls[i].freshId] == t.responses[i].body.note
    decreases |calls|
  {
    if |calls| > 0 {
      var c := calls[0];
      var o := Handle(c.req, store, c.freshId, c.now, c.storeFault);
      var t := Serve(store, calls);
      var rest := Serve(o.store, calls[1..]);
      assert o.store.Keys <= store.Keys + {c.freshId};
      FreshIdsTail(store, calls, o.store);
      ServeKeepsCreated(o.store, calls[1..]);
      ServeGrowth(o.store, calls[1..]);
      forall i | 0 <= i < |calls| && t.responses[i].statusCode == 201
        ensures calls[i].freshId in t.store && t.store[calls[i].freshId] == t.responses[i].body.note
      {
        if i > 0 {
          assert t.responses[i] == rest.responses[i - 1];
          assert calls[i] == calls[1..][i - 1];
        }
      }
    }
  }

  /**
   * Any note a session created can be read back afterwards: a read of its
   * id that reaches the store answers 200 with the note as created.
   */
  lemma ReadAfterSession(store: Store, calls: seq<Call>, i: nat, get: Request, freshId: string, now: string)
    requires FreshIds(store, calls)
    requires i < |calls| && calls[i].freshId != ""
    requires get.routeKey == GetRoute && get.pathParameters == Some(map["id" := calls[i].freshId])
    ensures var t := Serve(store, calls);
      t.responses[i].statusCode == 201 ==>
        Handle(get, t.store, freshId, now, None).response == Response(200, JsonHeaders, t.responses[i].body)
  {
    ServeKeepsCreated(store, calls);
  }
}
