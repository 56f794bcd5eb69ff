# Notes API request handler — Dafny model

The repository is a small note-taking backend: an AWS Lambda function behind an
API Gateway HTTP API, backed by a DynamoDB table keyed by `id`. All of its
runtime logic is the request handler `handler` in `src/handler.ts`:

- `POST /notes` parses the body. It rejects a falsy `content` with 400. Otherwise
  it builds a note from a fresh UUID, the body's `content` and the current time,
  puts the note, and answers 201 with it.
- `GET /notes/{id}` rejects a missing or empty `id` with 400. Otherwise it gets
  the item and answers 404 or 200 with the item.
- Any other `routeKey` gets 404 "Route not found.".
- Anything thrown ends in one catch that answers 500 with the error's message.

The model is a pure function
`Handler.Handle(req, store, freshId, now, storeFault) -> Outcome(response, store', ops)`:

- The table is a `map<string, Note>`.
- The UUID generator and the clock become the parameters `freshId` and `now`.
- `storeFault` says whether the store call (if one is made) throws, and what it throws.
- `ops` records the store calls made.

Module layout:

- `wrappers.dfy` (`Wrappers`): `Option` and `Result`.
- `js.dfy` (`Js`): the JavaScript semantics the handler relies on. This covers
  values produced by `JSON.parse`, thrown values, truthiness, and reading `.content`.
- `handler.dfy` (`Handler`): the data model and the handler, split along its
  branches (`ReadContent`, `Post`, `Lookup`, `Handle`).
- `handler_properties.dfy` (`HandlerProperties`): properties of one request, or
  of a create followed by a read.
- `sessions.dfy` (`Sessions`): successive invocations sharing one store. It
  proves the store invariant, growth and read-after-create over whole sessions.

Behaviour on edge inputs, as the code has it:

- A body that is not valid JSON makes `JSON.parse` throw a SyntaxError. The catch
  turns that into 500 with the parser's message, so a malformed body is a 500,
  not a 400 "Missing 'content'".
- A body that is the JSON literal `null` parses. Reading `null.content` then
  throws a TypeError, which also gives 500.
- `!body.content` is a truthiness test, not a string check. A missing `content`,
  `null`, `false`, `0` and `""` give 400. Any other value (a number, an array, an
  object) passes the handler's check and is sent to the store as it is. A body that is a JSON string, number,
  boolean or array has no `content` property and gives 400.
- The message of a 500 is `error.message` for any `Error` instance, even an empty
  one. It is "Internal Server Error" only when the thrown value is not an `Error`.
- The HTTP method is read (line 24) but never used. Routing compares `routeKey`
  alone.

One observation about the deployment in `index.ts`: the HTTP API is created with
a default `target` and declares no routes. API Gateway delivers `routeKey`
`$default` for such an API. The handler answers that routeKey with 404
"Route not found." whatever the request (`HandlerProperties.DefaultRouteIsNotFound`).

## Model

| member | source | states |
|---|---|---|
| Js.FalsyValues | src/handler.ts:29 | A property read is falsy exactly when it is undefined, `null`, `false`, zero or the empty string |
| Handler.ReadContent | src/handler.ts:28-29 | Reading the content throws exactly for a malformed body (the SyntaxError's message) or a `null` body (the TypeError). Any other value reads without a fault, and yields a value exactly when it is an object with its own `content` field, that field's value. An absent or empty body reads no content |
| Handler.Post | src/handler.ts:27-56 | Create answers only 201, 400 or 500. 400 exactly when the content read is falsy, with the fixed message, no store call and the store unchanged. 201 exactly when the content is truthy and the put succeeds: one put of `Note(freshId, content, now)`, store updated at `freshId`, JSON header, body the same note with content unchanged. A body fault gives 500 with no store call. A failed put gives 500 after one put attempt, with the store unchanged |
| Handler.Lookup | src/handler.ts:58-86 | Read never changes the store. 400 exactly when the id is missing or empty, with no store call. Otherwise exactly one get of that id: 404 "Note not found." when absent, 200 with the JSON header and the stored note verbatim when present, 500 with the fault's message when the get fails |
| Handler.Handle | src/handler.ts:19-101 | Status is one of 200/201/400/404/500. At most one store call. Only a 201 (from the create route) changes the store, by writing the returned note under `freshId`. "Route not found." is answered exactly for routeKeys other than the two known ones, with no store call. Every error answer is a message with no headers |
| HandlerProperties.MethodIsIgnored | src/handler.ts:24-27 | Changing the HTTP method of a request never changes the outcome |
| HandlerProperties.DefaultRouteIsNotFound | src/handler.ts:88-91 | routeKey `$default` is answered with 404 "Route not found.", no store call, store unchanged |
| HandlerProperties.ReadIsIdempotent | src/handler.ts:58-86 | A read leaves the store unchanged, so repeating it yields the same outcome |
| HandlerProperties.HandleKeepsConsistent | src/handler.ts:38-49 | Every request preserves the invariant that each note is stored under its own id and has truthy content |
| HandlerProperties.HandleKeepsNotes | src/handler.ts:44-49 | When the generated id is unused, no request removes or alters an existing note |
| HandlerProperties.CreateOverwritesTakenId | src/handler.ts:44-49 | The put is unconditional: for any successful create whose generated id is already taken, the new note replaces the stored one under that id, the set of ids stays the same, and a different earlier note is lost |
| HandlerProperties.CollidingIdExample | src/handler.ts:44-49 | A concrete create with a taken id that replaces the stored note, showing that keeping every note needs an unused id |
| HandlerProperties.FaultIsServerError | src/handler.ts:92-99 | A request answers 500 exactly when something reaches the catch: on create, a failed parse or read of the body, or a failed put of truthy content; on read, a failed get of a non-empty id. The message is the thrown value's own (`FaultMessage`: an Error's message, even an empty one, else "Internal Server Error"), there are no headers, the store is unchanged, and a body fault comes before any store call |
| HandlerProperties.TruthyContentIsAccepted | src/handler.ts:29-55 | Any body object whose own `content` field is truthy gets 201 when the put succeeds, and the field's value is stored under `freshId` unchanged, whatever its JSON type |
| HandlerProperties.CreatedNoteIsReadable | src/handler.ts:38-55 | After a successful create, a read of the returned id that reaches the store answers 200 with exactly the created note |
| Sessions.Serve | src/handler.ts:19-101 | Serving calls in order gives one response per call, and each 201 response carries the id and time generated for its own call |
| Sessions.ServeKeepsConsistent | src/handler.ts:38-49 | Over any session, each note stays stored under its own id with truthy content |
| Sessions.ServeWithoutCreatesIsReadOnly | src/handler.ts:44-49 | A session with no 201 response leaves the store exactly as it was |
| Sessions.ServeGrowth | src/handler.ts:44-49 | With fresh, distinct ids, no stored note is lost or altered, and the store grows by exactly the number of 201 responses |
| Sessions.ServeKeepsCreated | src/handler.ts:44-55 | With fresh, distinct ids, every note created in a session is in the final store under its id, equal to the note its 201 response returned |
| Sessions.ReadAfterSession | src/handler.ts:72-85 | Any note created earlier in a session reads back as 200 with the note as created |

## Left out

- Pulumi infrastructure (`index.ts`): declarative deployment with no runtime logic.
- DynamoDB client construction and `process.env` reads (lines 14-17, 45, 68): the table is an abstract map, and `TABLE_NAME` is assumed to name it.
- `randomUUID()` and `new Date().toISOString()` (lines 39, 41): these are parameters. UUID uniqueness is not proved; the session lemmas assume fresh, distinct ids instead.
- Real JSON parsing: the body carries what `JSON.parse` makes of its text, either a value or a SyntaxError message.
- Duplicate keys in a JSON object are not modelled (objects are maps).
- JavaScript numbers are exact reals, so parse rounding (for example `1e-400` becoming `0`) is not modelled.
- `JSON.stringify` of responses: bodies are structured values (a message or a note), not strings.
- Some truthy contents are rejected by the store rather than the handler. The document client's default marshalling throws for numbers beyond `Number.MAX_SAFE_INTEGER` in magnitude, and DynamoDB refuses numbers outside its own range, so `{"content": 1e20}` ends in 500. The model has no such rejection of its own: it reaches these cases only through the `storeFault` input.
- A failed store call is modelled as writing nothing. A put that takes effect and then reports a failure is not modelled.
- The TypeError text for `null.content` is V8's wording. Other engines word it differently.
- `console.error` logging (line 93) and `async`/`await`: these are I/O and sequencing, with no effect on the outcome.
- A missing `requestContext` would make line 24 throw. API Gateway always supplies it, so the model does not represent it.
- HandlerProperties.CreatedNoteIsReadable: assumes every read sees the latest write. The get at src/handler.ts:67-70 sets no `ConsistentRead`, so DynamoDB reads are eventually consistent, and a read just after a 201 may miss the put and answer 404 "Note not found.". The map store does not model stale reads.
- Sessions.ReadAfterSession: relies on the same read-your-writes assumption as `CreatedNoteIsReadable`. Under eventually consistent reads a note created earlier in the session may briefly read back as 404.
- Handler.Lookup: reads the store as it stands after all earlier requests. Stale (eventually consistent) reads are not modelled.
- Strings are Dafny sequences of Unicode scalar values. A JavaScript string can hold a lone surrogate (for example from `JSON.parse("\"\\ud800\"")`), which the model cannot represent. The handler only tests strings for emptiness and equality, so no modelled behaviour depends on this.
