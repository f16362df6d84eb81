# RouteCollector registration side, modelled in Dafny

This project models the registration side of the `rosem/route` HTTP router,
`Rosem\Route\RouteCollector`. The collector keeps two things:

- `$routes`: for each HTTP method, a list of route chunks;
- `$prefix`: the path prefix of the group currently being registered.

It models:

- the path helpers `normalize` and `prefixy`;
- `addRoute`, which places a route in the last chunk of each method's list. It opens the list lazily, appends a fresh chunk when the last one refuses, and fails ("Your route is too long") when even the fresh chunk refuses;
- `prefix`, which sets `$prefix`, runs a group and then resets `$prefix` to `''`;
- the six verb helpers `get`, `post`, `put`, `patch`, `delete` and `options`;
- the lookup `make` does before it hands the chunk list to the dispatcher.

Files and modules:

- `paths.dfy`, module `Paths`: PHP's `trim($s, '/')`, `normalize` and `prefixy` as functions, with lemmas about their results.
- `chunk.dfy`, module `Chunks`: routes and the chunk object. Its `AddRoute` accepts a route only when the chunk has room and its rule admits the route.
- `table.dfy`, module `RouteTable`: the route table as a value.
  - `Place` is one pass of `addRoute`'s loop.
  - `Register` is the whole call.
  - Lemmas state what one call does to every method's chunk list.
- `facade.dfy`, module `Facade`: the calls a group body makes, as a datatype.
  - `Step` and `Run` give their effect on the table and on `$prefix`.
  - Lemmas cover the verb helpers, the non-stack behaviour of `prefix`, and invariants kept by any sequence of calls.
- `collector.dfy`, module `Collector`: class `RouteCollector`.
  - It has the mutable fields `routes` (chunk objects) and `prefix`.
  - Its methods update them in place.
  - Each method is proved against `Register`, `Step` or `Run`.

Exceptions are modelled as an `ok: bool` result. When a call fails, the model keeps exactly the state the source leaves behind:

- the empty fresh chunk stays appended;
- methods handled earlier in the same call stay registered;
- inside `prefix`, the reset of `$prefix` does not happen, because the exception leaves the method first.

Two behaviours of the code are worth stating on their own:

- `prefix` is not a stack. It overwrites `$prefix` and then sets it to `''` (src/RouteCollector.php:76-80), so a nested `prefix` does not restore the outer prefix (`Facade.NestedPrefixNotRestored`).
- A route starting with `/` ignores the current prefix (src/RouteCollector.php:37). Inside `prefix('/api', ...)`, `get('/users')` registers `/users`, and only `get('users')` gives `/api/users` (`Facade.PrefixGroupExample`).

## Model

| member | source | states |
|---|---|---|
| Paths.TrimStart | src/RouteCollector.php:31 | the leading-slash cut of `trim`: the result is a suffix of the input, everything cut off is `/`, and the result does not start with `/` |
| Paths.TrimEnd | src/RouteCollector.php:31 | the trailing-slash cut of `trim`: the result is a prefix of the input, everything cut off is `/`, and the result does not end with `/` |
| Paths.Trim | src/RouteCollector.php:31 | `trim($s, '/')` is no longer than its input, neither starts nor ends with `/`, and is non-empty when the input starts with a non-`/`; which part it keeps is `Paths.TrimIsCore` |
| Paths.TrimIsCore | src/RouteCollector.php:31 | `trim($s, '/')` returns exactly the part of `s` between its leading and trailing runs of slashes |
| Paths.Normalize | src/RouteCollector.php:29-32 | the result starts with `/` and, unless it is `"/"`, has neither a second leading `/` nor a trailing `/` |
| Paths.NormalizedIffFixed | src/RouteCollector.php:29-32 | a string has that shape exactly when `normalize` leaves it unchanged |
| Paths.NormalizeIdempotent | src/RouteCollector.php:29-32 | `normalize(normalize(r)) == normalize(r)` |
| Paths.NormalizeKeepsCore | src/RouteCollector.php:31 | the result is `/` followed by the input from its first to its last non-`/` character, unchanged |
| Paths.NormalizeExamples | src/RouteCollector.php:31 | `"/a/b/"`, `"a/b"` and `"/a/b"` all normalize to `"/a/b"`; `"///"` normalizes to `"/"` |
| Paths.NormalizeRelative | src/RouteCollector.php:31 | a route not starting with `/` normalizes to `/` plus its trim, which is longer than the root |
| Paths.NormalizePiece | src/RouteCollector.php:31 | a piece with no `/` at either end normalizes to `/piece`, and so does `/piece` |
| Paths.Prefixy | src/RouteCollector.php:34-38 | an absolute route gives a normalized path; a relative route keeps the current prefix in front and adds more than a lone `/` after it, ending in a non-`/` |
| Paths.PrefixyAbsolute | src/RouteCollector.php:34-38 | a route starting with `/` gives `normalize(route)` whatever the current prefix |
| Paths.PrefixyRelative | src/RouteCollector.php:34-38 | any other route gives the prefix followed by `normalize(route)`, and that result is longer than the prefix plus one |
| Paths.PrefixyNormalized | src/RouteCollector.php:37 | with an empty prefix, or a normalized prefix other than `/`, the result is normalized |
| Paths.PrefixyUnderRoot | src/RouteCollector.php:37 | under the prefix `/`, a relative route `p` becomes `//p`, which is not normalized |
| Paths.PrefixyPathLike | src/RouteCollector.php:37 | a prefix that is empty, `/`, or starts with `/` without ending in one, gives a result of that same shape that starts with `/` |
| Chunks.FitsFreshest | src/RouteCollector.php:59-63 | a route that a fresh chunk refuses is refused by every chunk, so the second offer can fail only when the route is refused everywhere |
| Chunks.Chunk.constructor | src/RouteCollector.php:53 | `new NumberBasedChunk()` is empty and follows the collector's rule |
| Chunks.Chunk.AddRoute | src/RouteCollector.php:59 | the chunk takes the route exactly when it has room and admits it; then the route is appended, otherwise nothing changes |
| RouteTable.ListFor | src/RouteCollector.php:52-54 | a method not yet in `$routes` gets the one-chunk list `[[]]`; an existing list is non-empty |
| RouteTable.Offer | src/RouteCollector.php:57-59 | offering to `end($list)` keeps the list length and succeeds exactly when the last chunk fits the route |
| RouteTable.Place | src/RouteCollector.php:57-66 | one offer adds at most one chunk to the list |
| RouteTable.PlaceByOffers | src/RouteCollector.php:57-63 | one pass is an offer to the last chunk, then, only if it refuses, an offer to a fresh chunk appended to the list |
| RouteTable.PlaceSpec | src/RouteCollector.php:57-64 | chunks before the last are untouched and the last only grows; a chunk is appended exactly when the last one refused; the route is placed exactly when a fresh chunk would take it, and it then ends the list; on refusal the list is the old one plus `[]` |
| RouteTable.Register | src/RouteCollector.php:49-67 | every list in the table stays non-empty |
| RouteTable.RegisterAppend | src/RouteCollector.php:49-67 | registering for `a + b` is registering for `a` and then, if that returned normally, for `b` |
| RouteTable.RegisterFrame | src/RouteCollector.php:49-67 | a method not named in the call keeps its entry, or stays absent |
| RouteTable.RegisterOkIff | src/RouteCollector.php:59-65 | the call returns normally exactly when a fresh chunk admits the route for every method named |
| RouteTable.RegisterPlacesRoute | src/RouteCollector.php:49-66 | after a normal return every method named has a list whose last chunk ends with `Route(method, pattern)` |
| RouteTable.RegisterGrowth | src/RouteCollector.php:49-66 | every touched list extends the old one, or the fresh `[[]]`: earlier chunks are unchanged, the old last chunk only gained routes, and the list grew by at most one chunk per occurrence of the method |
| RouteTable.RegisterFailure | src/RouteCollector.php:60-65 | when the route is refused for `methods[k]`, the call fails; earlier methods stay registered, `methods[k]` gets an empty chunk appended, and methods not reached are untouched |
| RouteTable.PlaceKeepsWellFormed | src/RouteCollector.php:57-63 | one pass keeps every chunk within capacity, holding only admitted routes of its own method |
| RouteTable.RegisterKeepsWellFormed | src/RouteCollector.php:49-67 | the same holds after a whole `addRoute` call |
| RouteTable.PlaceKeepsPacked | src/RouteCollector.php:57-63 | a successful pass keeps every chunk but the last full, and the last non-empty |
| RouteTable.RegisterKeepsPacked | src/RouteCollector.php:49-67 | the same holds after a successful `addRoute` call |
| Facade.MethodOf | src/RouteCollector.php:100-145 | the method each helper passes (`RequestMethod::GET` ... `OPTIONS`) is a non-empty upper-case token; that the six differ is `Facade.MethodOfInjective` |
| Facade.MethodOfInjective | src/RouteCollector.php:100 | the six helpers register under six distinct method names |
| Facade.Step | src/RouteCollector.php:47-146 | one call of `addRoute`, a verb helper or `prefix` keeps every method's list non-empty; its effect call by call is stated by `Facade.VerbIsAddRoute`, `Facade.HandlerNotStored` and `Facade.PrefixResets` |
| Facade.Run | src/RouteCollector.php:79 | running a group body keeps every list non-empty; that it stops at the first call that throws is `Facade.RunTwo`, and the invariants it keeps are `Facade.RunKeepsPathLike`, `Facade.RunKeepsWellFormed` and `Facade.RunKeepsPacked` |
| Facade.VerbIsAddRoute | src/RouteCollector.php:98-146 | a verb helper has exactly the effect of `addRoute([verb], prefixy(route), handler)` |
| Facade.HandlerNotStored | src/RouteCollector.php:47-50 | two `addRoute` calls that differ only in the handler have the same effect |
| Facade.PrefixResets | src/RouteCollector.php:74-81 | the group runs on the table under `prefixy(p)`; `prefix` returns normally exactly when the group does, with the group's table and `$prefix == ''`; on failure the state is the group's |
| Facade.PrefixFailureKeepsPrefix | src/RouteCollector.php:79-80 | when a call inside the group throws, `$prefix` keeps the group's value instead of being reset |
| Facade.StepKeepsPathLike | src/RouteCollector.php:74-81 | every call keeps `$prefix` empty, `/`, or starting with `/` and not ending with one |
| Facade.RunKeepsPathLike | src/RouteCollector.php:79 | the same holds for any sequence of calls |
| Facade.StepKeepsWellFormed | src/RouteCollector.php:47-146 | every call keeps chunks within capacity and holding only admitted routes of their own method |
| Facade.RunKeepsWellFormed | src/RouteCollector.php:79 | the same holds for any sequence of calls |
| Facade.StepKeepsPacked | src/RouteCollector.php:47-146 | every call that returns normally keeps every chunk but the last full |
| Facade.RunKeepsPacked | src/RouteCollector.php:79 | the same holds for a sequence of calls that all return normally |
| Facade.FirstRoute | src/RouteCollector.php:52-59 | on an empty table, one route gives that method the single chunk `[route]` |
| Facade.SecondRoute | src/RouteCollector.php:57-59 | a second route joins the only chunk while it has room |
| Facade.VerbFirstRoute | src/RouteCollector.php:98-101 | a verb helper on an empty table opens its verb's list with the prefixed route |
| Facade.VerbSecondRoute | src/RouteCollector.php:98-101 | a second helper call for the same verb appends to that chunk |
| Facade.RunTwo | src/RouteCollector.php:79 | a two-call body runs the second call only when the first returned normally |
| Facade.RunOne | src/RouteCollector.php:79 | a one-call body is that call |
| Facade.AbsolutePiece | src/RouteCollector.php:37 | under any prefix, `/users` stays `/users` |
| Facade.RelativePiece | src/RouteCollector.php:37 | under any prefix, `users` becomes the prefix followed by `/users` |
| Facade.PrefixGroupExample | src/RouteCollector.php:74-81 | in `prefix('/api', ...)`, `get('/users')` registers `/users` and `get('users')` registers `/api/users`; afterwards `$prefix` is `''` |
| Facade.NestedPrefixNotRestored | src/RouteCollector.php:76-80 | after a nested `prefix('/v1', ...)` inside `prefix('/api', ...)`, a relative `get('users')` in the outer group registers `/users`, not `/api/users` |
| Collector.RouteCollector.constructor | src/RouteCollector.php:19-27 | a new collector has no routes and the prefix `''` |
| Collector.RouteCollector.Open | src/RouteCollector.php:52-54 | the method gets a one-chunk list only if it had none; nothing else changes |
| Collector.RouteCollector.OfferLast | src/RouteCollector.php:57-59 | only the last chunk object of the list is offered the route and can change; the table changes as `Offer` says |
| Collector.RouteCollector.Append | src/RouteCollector.php:60 | a fresh, empty chunk object is appended to the method's list |
| Collector.RouteCollector.OfferFresh | src/RouteCollector.php:60-63 | the fresh chunk stays appended whether or not it takes the route |
| Collector.RouteCollector.PlaceRoute | src/RouteCollector.php:50-66 | one pass of the loop changes the chunk objects exactly as `Place` says and reports whether the route was placed |
| Collector.RouteCollector.AddRoute | src/RouteCollector.php:47-68 | the chunk objects end up holding `Register(old table, methods, parse(route))`; the result says whether the call returned normally; `$prefix` is unchanged |
| Collector.RouteCollector.Prefix | src/RouteCollector.php:74-81 | the group runs under `prefixy(p)`; on a normal return `$prefix` is `''`, otherwise it keeps the group's value; the table is the group's |
| Collector.RouteCollector.Run | src/RouteCollector.php:79 | running a group body on the collector matches `Facade.Run` |
| Collector.RouteCollector.Exec | src/RouteCollector.php:79 | one statement of a group body matches `Facade.Step` |
| Collector.RouteCollector.Helper | src/RouteCollector.php:98-146 | the helper for a verb matches `Facade.Step` of that verb |
| Collector.RouteCollector.Get | src/RouteCollector.php:98-101 | `get` has the effect of `addRoute(GET, prefixy(route), handler)` |
| Collector.RouteCollector.Post | src/RouteCollector.php:107-110 | `post` has the effect of `addRoute(POST, prefixy(route), handler)` |
| Collector.RouteCollector.Put | src/RouteCollector.php:116-119 | `put` has the effect of `addRoute(PUT, prefixy(route), handler)` |
| Collector.RouteCollector.Patch | src/RouteCollector.php:125-128 | `patch` has the effect of `addRoute(PATCH, prefixy(route), handler)` |
| Collector.RouteCollector.Delete | src/RouteCollector.php:134-137 | `delete` has the effect of `addRoute(DELETE, prefixy(route), handler)` |
| Collector.RouteCollector.Options | src/RouteCollector.php:143-146 | `options` has the effect of `addRoute(OPTIONS, prefixy(route), handler)` |
| Collector.RouteCollector.Make | src/RouteCollector.php:89-92 | for a registered method, the chunk list handed to the dispatcher is non-empty and holds the recorded routes |

## Left out

- `RouteParser`, `NumberBasedChunk` and `NumberBasedDispatcher` are not part of this model.
  - The parser is a function parameter `parse` of the collector.
  - A chunk's regular-expression budget is abstracted as `ChunkRule`: a capacity plus a predicate saying which routes any chunk admits.
- Dispatch, and so the result of `make`, is not modelled, since it delegates entirely to the dispatcher. Only the lookup `$this->routes[$method]` is modelled, with `method in routes` as its precondition.
- The group closure and `call_user_func` (src/RouteCollector.php:79) are replaced by a given sequence of registration calls (`Facade.Call`). A closure that does anything other than register routes is not modelled.
- The `RequestMethod` constants come from a package not part of this model. They are the strings `"GET"`, `"POST"`, `"PUT"`, `"PATCH"`, `"DELETE"` and `"OPTIONS"`.
- `addRoute` accepts one method string or an array of them (`(array)$methods`). The model always takes a sequence, and the helpers pass a one-element sequence.
- The source parses the route once per method; the model parses it once. The parser is assumed to be a total function of the route; an exception from `parse` (declared by `addRoute`, src/RouteCollector.php:45) is not modelled.
- `$route[0]` and `$prefix[0]` on an empty string are PHP warnings. They are preconditions instead: `|route| > 0` and `|p| > 0`.
- Exceptions are an `ok` result, not control flow.
- Collector.RouteCollector.Prefix: requires every call of the group to have a non-empty route or prefix, even one that an earlier failing call would keep from running; the source only meets the empty string when it reaches it.
- Collector.RouteCollector.Helper, Exec and Run do not correspond to methods of the source. They execute the calls of a group body.
- Facade.Step: its own contract only keeps every list non-empty. What it means is stated by the lemmas about it and by the collector's methods proved against it.
