# Fruit catalogue API, modelled in Dafny

This project models `MyFirstApp/Program.cs`. That file is a minimal ASP.NET Core
service that keeps fruit records (`Fruit(Name, Stock)`) in memory, keyed by a string id.
The model covers the following:

- the store and its five endpoints: `GET /fruit`, `GET /fruit/{id}`, `POST /fruit/{id}`,
  `PUT /fruit/{id}` and `DELETE /fruit/{id}`;
- the id-validation filter `ValidationHelper.ValidateId`;
- the filter chain of `GET /fruit/{id}`. `ValidateId` is added first, so it is the
  outermost filter. The inline logging filter sits inside it.

Modules:

- `Fruits` (fruits.dfy): the `Fruit` record, the store contents `Catalogue`, and the typed
  results (`Ok`, `Problem(404)`, `Created`, `ValidationProblem`, `NoContent`, and the
  store's entries returned by the list endpoint).
- `Filters` (filters.dfy): the id rule `ValidId`, the filters `ValidateId` and
  `LogAndForward`, and `Chain`. `Chain` wraps a route's filters around its handler, with the
  first filter added as the outermost one.
- `Handlers` (handlers.dfy): the five handlers as functions of the store contents. Each
  returns the response and, for POST, PUT and DELETE, the new contents.
- `Routes` (routes.dfy): the route table `Dispatch`, the filtered `GetRoute`, and `Run`.
  `Run` serves a sequence of requests one after another.
- `FruitStore` (store.dfy): the `Store` class. Its `fruit` map is the shared dictionary. POST,
  PUT and DELETE update it in place, and each method is proved to match the handler function.

Two consequences of the code as written:

- Only `GET /fruit/{id}` has filters (MyFirstApp/Program.cs:23-24). `POST /fruit/{id}` has
  none, so `POST /fruit/apple` creates an entry. That entry appears in `GET /fruit`, but
  `GET /fruit/apple` rejects it (`Routes.UnvalidatedCreateScenario`).
- The id rule is `IsNullOrEmpty` and `StartsWith('f')` only. `ValidId` rejects a
  whitespace-only id too, because its first character is not `'f'`.

## Model

| member | source | states |
|---|---|---|
| `Filters.ValidateId` | MyFirstApp/Program.cs:61-76 | an empty id, or one whose first character is not `'f'`, yields a validation problem whose only key is `"id"` with the single message "Invalid format. Id must start with 'f'", which does not depend on `next`; any other id yields exactly `next(id)` |
| `Filters.LogAndForwardPassesThrough` | MyFirstApp/Program.cs:24-30 | the logging filter returns the inner result unchanged for every id and continuation |
| `Filters.ChainOfPassThroughs` | MyFirstApp/Program.cs:23-30 | a chain made only of pass-through filters returns what the handler returns |
| `Filters.ValidateIdShortCircuits` | MyFirstApp/Program.cs:23-24 | with `ValidateId` outermost, a malformed id gets the invalid-id problem whatever the inner filters and handler are, so none of them affects the result |
| `Filters.ValidatedChain` | MyFirstApp/Program.cs:23-30 | `ValidateId` outside pass-through filters gives the same result as `ValidateId` wrapped directly around the handler |
| `Handlers.ListFruit` | MyFirstApp/Program.cs:17 | the list endpoint returns the entire current store |
| `Handlers.GetFruit` | MyFirstApp/Program.cs:19-23 | the result is `Ok` exactly when the id is stored, and then it holds the stored fruit; otherwise it is a 404 problem |
| `Handlers.CreateFruit` | MyFirstApp/Program.cs:32-38 | for an absent id, the id now maps to the fruit, every other key is unchanged, and the result is `Created("/fruit/" + id, fruit)`; for a present id, the store is unchanged and the result is the problem `{"id": ["Fruit with this ID already exists."]}` |
| `Handlers.ReplaceFruit` | MyFirstApp/Program.cs:40-44 | the id maps to the new fruit whether or not it existed, every other key is unchanged, and the result is NoContent |
| `Handlers.DeleteFruit` | MyFirstApp/Program.cs:46-50 | afterwards the id is absent and every other key is unchanged; an absent id leaves the store as it was; the result is always NoContent |
| `Handlers.CreateThenGet` | MyFirstApp/Program.cs:19-38 | after a POST to an absent id, GET of that id returns the posted fruit |
| `Handlers.CreateTwiceKeepsFirst` | MyFirstApp/Program.cs:32-38 | a second POST to the same id, with any fruit, is rejected as a duplicate, does not change the store, and the first fruit stays readable |
| `Handlers.ReplaceLastWriteWins` | MyFirstApp/Program.cs:40-44 | two PUTs to one id leave the same store as the second PUT alone, and GET then returns the second fruit |
| `Handlers.DeleteIdempotent` | MyFirstApp/Program.cs:46-50 | deleting twice gives the same result as deleting once, and GET then reports 404 |
| `Routes.GetRoute` | MyFirstApp/Program.cs:19-30 | the filtered GET by id returns the invalid-id problem for a malformed id, whatever the store holds; for a well-formed id it returns `Ok` with the stored fruit, or 404 when the id is absent |
| `Routes.Dispatch` | MyFirstApp/Program.cs:17-50 | a request changes no entry except the one under the id it writes, and GET and list requests leave the store unchanged |
| `Routes.Run` | MyFirstApp/Program.cs:15-50 | serving requests in order gives one response per request, and the first response is the first request's own |
| `Routes.RunPrefix` | MyFirstApp/Program.cs:15-50 | in a run, the response to request `i` is that request served on the store left by the requests before it |
| `Routes.RunSnoc` | MyFirstApp/Program.cs:15-50 | serving one more request after a run leaves the store that request leaves when served on the run's final store, and appends its response |
| `Routes.CreatesOnPresentId` | MyFirstApp/Program.cs:32-38 | any number of POSTs to an id that is already stored all get the duplicate-id problem and leave the store unchanged |
| `Routes.CreateRace` | MyFirstApp/Program.cs:32-38 | among any number of POSTs to one id, served in any order, the first one succeeds exactly when the id was absent and every other one gets the duplicate-id problem; the stored fruit is then the first one's |
| `Routes.RunFrame` | MyFirstApp/Program.cs:15-50 | a run of requests that never writes key `k` leaves the entry under `k` as it was |
| `Routes.ReadsKeepStore` | MyFirstApp/Program.cs:17-30 | a run made only of GET and list requests never changes the store |
| `Routes.CreateThenGetScenario` | MyFirstApp/Program.cs:19-38 | `POST /fruit/fapple` with `{Apple, 10}` and then `GET /fruit/fapple` on an empty store give `Created("/fruit/fapple", …)` and then `Ok` with the same fruit |
| `Routes.DuplicateCreateScenario` | MyFirstApp/Program.cs:32-38 | posting `fapple` twice gives `Created`, then the duplicate-id problem |
| `Routes.MissingGetScenario` | MyFirstApp/Program.cs:19-23 | `GET /fruit/fmissing` on an empty store gives a 404 problem |
| `Routes.UnvalidatedCreateScenario` | MyFirstApp/Program.cs:17-38 | `POST /fruit/apple` succeeds because POST has no filter; `GET /fruit/apple` is then rejected as an invalid id, while `GET /fruit` shows the entry |
| `FruitStore.Store.constructor` | MyFirstApp/Program.cs:15 | the store starts empty |
| `FruitStore.Store.List` | MyFirstApp/Program.cs:17 | returns the current contents and modifies nothing |
| `FruitStore.Store.Get` | MyFirstApp/Program.cs:19-30 | the filtered GET by id on the current contents: the invalid-id problem, `Ok` with the stored fruit, or 404; it modifies nothing |
| `FruitStore.Store.Create` | MyFirstApp/Program.cs:32-38 | insert-if-absent in place: for an absent id, the new map is the old one with `id -> f` and the result is `Created`; for a present id, the map is unchanged and the result is the duplicate-id problem; the new map and result are exactly `Handlers.CreateFruit` on the old map |
| `FruitStore.Store.Replace` | MyFirstApp/Program.cs:40-44 | the new map is the old one with `id -> f`, and the result is NoContent, exactly as `Handlers.ReplaceFruit` on the old map |
| `FruitStore.Store.Delete` | MyFirstApp/Program.cs:46-50 | the new map is the old one without `id`, and the result is NoContent, exactly as `Handlers.DeleteFruit` on the old map |
| `FruitStore.Store.Serve` | MyFirstApp/Program.cs:17-50 | serving a request through the store's methods gives exactly the new contents and response that `Routes.Dispatch` gives |

## Left out

- Host and middleware setup (lines 3-13 and 52): `CreateBuilder`, `AddProblemDetails`, the developer exception page, status-code pages and `app.Run`. These are framework plumbing.
- Thread safety of `ConcurrentDictionary`: the store is a sequential map. Concurrent single-key requests (`TryGetValue`, `TryAdd`, indexer assignment, `TryRemove`) are modelled as `Routes.Run` serving them in some order. This relies on each of those dictionary operations being atomic; that atomicity is assumed, not proved.
- Handlers.ListFruit: the list response is modelled as the store's contents at the moment the request is served. The code returns the live dictionary, which is enumerated later, when the response is serialised, and not atomically. A list request that overlaps concurrent writes can see a mix of states that no serial order produces; such overlaps are not covered. The same holds for `FruitStore.Store.List`.
- `async`, `ValueTask` and `EndpointFilterInvocationContext`: a filter is a plain function of the id argument and a continuation. The continuation is a function value, so "invoked at most once" is not expressible. Only "the result does not depend on it" (rejection) and "the result is its result" (acceptance) are stated.
- The positional lookup `GetArgument<string>(0)`: the filter receives the id directly, so a route whose first argument is not the id is not modelled. A null id does not exist, because Dafny strings are never null; `IsNullOrEmpty` becomes "empty".
- The log lines written by the inline GET filter: only its pass-through of the result is kept, as `LogAndForward`.
- Serialisation of the typed results to HTTP responses, including the status codes and problem-details bodies: results are datatype constructors. `Results.Problem(statusCode: 404)` is `Problem(404)`.
- Route matching and model binding of the id and the JSON body: requests arrive already bound, as `Routes.Request` values.
- The unused static dictionary `Fruit.All` (line 56).
