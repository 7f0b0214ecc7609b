/** The route table of /fruit: which handler serves which request, the filter
    chain of GET /fruit/{id}, and a run of requests served one after another. */
module Routes {
  import opened Fruits
  import opened Filters
  import opened Handlers

  /** An inbound request, after routing and parameter binding. */
  datatype Request =
    | ListAll                              // GET /fruit
    | GetById(id: string)                  // GET /fruit/{id}
    | PostById(id: string, fruit: Fruit)   // POST /fruit/{id}
    | PutById(id: string, fruit: Fruit)    // PUT /fruit/{id}
    | DeleteById(id: string)               // DELETE /fruit/{id}

  /** The request may change the entry stored under k. */
  predicate Writes(req: Request, k: string)
  {
    (req.PostById? || req.PutById? || req.DeleteById?) && req.id == k
  }

  /** The filters of GET /fruit/{id}, in the order they are added. */
  function GetFilters(): seq<Filter>
  {
    [ValidateId, LogAndForward]
  }

  /** The GET /fruit/{id} handler, reading the given store. */
  function GetEndpoint(m: Catalogue): Next
  {
    (id: string) => GetFruit(m, id)
  }

  /** GET /fruit/{id} with its filters: a malformed id is rejected before the
      store is read; a well-formed one gets the handler's answer unchanged. */
  function GetRoute(m: Catalogue, id: string): (r: Response)
    ensures !ValidId(id) ==> r == InvalidIdProblem()
    ensures ValidId(id) && id in m ==> r == Ok(m[id])
    ensures ValidId(id) && id !in m ==> r == Problem(404)
  {
    LogAndForwardPassesThrough();
    assert GetFilters() == [ValidateId] + [LogAndForward];
    ValidatedChain([LogAndForward], GetEndpoint(m), id);
    Chain(GetFilters(), GetEndpoint(m))(id)
  }

  /** Serves one request against the store. Only GET /fruit/{id} is filtered. */
  function Dispatch(m: Catalogue, req: Request): (h: Handled)
    ensures forall k :: !Writes(req, k) ==> (k in h.store <==> k in m) && (k in m ==> h.store[k] == m[k])
    ensures req.ListAll? || req.GetById? ==> h.store == m
  {
    match req
    case ListAll => Handled(m, ListFruit(m))
    case GetById(id) => Handled(m, GetRoute(m, id))
    case PostById(id, fruit) => CreateFruit(m, id, fruit)
    case PutById(id, fruit) => ReplaceFruit(m, id, fruit)
    case DeleteById(id) => DeleteFruit(m, id)
  }

  /** The store after a run of requests and the response to each. */
  datatype Served = Served(store: Catalogue, responses: seq<Response>)

  /** Serves the requests one after another, each seeing the store the previous one left. */
  function Run(m: Catalogue, reqs: seq<Request>): (s: Served)
    ensures |s.responses| == |reqs|
    ensures reqs != [] ==> s.responses[0] == Dispatch(m, reqs[0]).response
    decreases |reqs|
  {
    if reqs == [] then Served(m, [])
    else
      var h := Dispatch(m, reqs[0]);
      var rest := Run(h.store, reqs[1..]);
      Served(rest.store, [h.response] + rest.responses)
  }

  /** A run unfolds into its first request and the run of the others. */
  lemma RunStep(m: Catalogue, reqs: seq<Request>, i: nat)
    requires 0 < i < |reqs|
    ensures Run(m, reqs).store == Run(Dispatch(m, reqs[0]).store, reqs[1..]).store
    ensures Run(m, reqs).responses[i] == Run(Dispatch(m, reqs[0]).store, reqs[1..]).responses[i - 1]
  {
  }

  /** Each request is answered against the store that the requests before it left. */
  lemma {:induction false} RunPrefix(m: Catalogue, reqs: seq<Request>, i: nat)
    requires i < |reqs|
    ensures Run(m, reqs).responses[i] == Dispatch(Run(m, reqs[..i]).store, reqs[i]).response
    decreases i
  {
    if i > 0 {
      var m1 := Dispatch(m, reqs[0]).store;
      RunStep(m, reqs, i);
      RunPrefix(m1, reqs[1..], i - 1);
      assert reqs[..i][0] == reqs[0];
      assert reqs[..i][1..] == reqs[1..][..i - 1];
      assert Run(m, reqs[..i]).store == Run(m1, reqs[1..][..i - 1]).store;
    }
  }

  /** Serving one more request extends the run by that request served on the store the run left. */
  lemma {:induction false} RunSnoc(m: Catalogue, reqs: seq<Request>, req: Request)
    ensures Run(m, reqs + [req]).store == Dispatch(Run(m, reqs).store, req).store
    ensures Run(m, reqs + [req]).responses == Run(m, reqs).responses + [Dispatch(Run(m, reqs).store, req).response]
    decreases |reqs|
  {
    if reqs == [] {
      assert reqs + [req] == [req];
      assert [req][1..] == [];
    } else {
      var m1 := Dispatch(m, reqs[0]).store;
      assert (reqs + [req])[0] == reqs[0];
      assert (reqs + [req])[1..] == reqs[1..] + [req];
      RunSnoc(m1, reqs[1..], req);
    }
  }

  /** POSTs to one id on a store that already holds it all fail with the
      duplicate-id problem and leave the store as it was. */
  lemma {:induction false} CreatesOnPresentId(m: Catalogue, id: string, reqs: seq<Request>)
    requires id in m
    requires forall i :: 0 <= i < |reqs| ==> reqs[i].PostById? && reqs[i].id == id
    ensures Run(m, reqs).store == m
    ensures forall i :: 0 <= i < |reqs| ==> Run(m, reqs).responses[i] == IdProblem(DuplicateIdMessage)
    decreases |reqs|
  {
    if reqs != [] {
      assert Dispatch(m, reqs[0]) == Handled(m, IdProblem(DuplicateIdMessage));
      CreatesOnPresentId(m, id, reqs[1..]);
      forall i | 0 < i < |reqs|
        ensures Run(m, reqs).responses[i] == IdProblem(DuplicateIdMessage)
      {
        RunStep(m, reqs, i);
      }
    }
  }

  /** Any number of POSTs racing for one id, served in any order: exactly the
      first one served succeeds when the id was absent, every other one gets
      the duplicate-id problem, and the stored fruit is the winner's. */
  lemma {:induction false} CreateRace(m: Catalogue, id: string, reqs: seq<Request>)
    requires forall i :: 0 <= i < |reqs| ==> reqs[i].PostById? && reqs[i].id == id
    ensures forall i :: 0 <= i < |reqs| ==>
              (Run(m, reqs).responses[i].Created? <==> i == 0 && id !in m)
    ensures forall i :: 0 <= i < |reqs| ==>
              Run(m, reqs).responses[i].Created? || Run(m, reqs).responses[i] == IdProblem(DuplicateIdMessage)
    ensures Run(m, reqs).store == if id in m || reqs == [] then m else m[id := reqs[0].fruit]
  {
    if id in m {
      CreatesOnPresentId(m, id, reqs);
    } else if reqs != [] {
      var m1 := m[id := reqs[0].fruit];
      assert Dispatch(m, reqs[0]) == Handled(m1, Created("/fruit/" + id, reqs[0].fruit));
      CreatesOnPresentId(m1, id, reqs[1..]);
      forall i | 0 < i < |reqs|
        ensures Run(m, reqs).responses[i] == IdProblem(DuplicateIdMessage)
      {
        RunStep(m, reqs, i);
      }
    }
  }

  /** Requests that do not write key k leave its entry as it was, whatever
      else they do: the store's entries are independent. */
  lemma {:induction false} RunFrame(m: Catalogue, reqs: seq<Request>, k: string)
    requires forall i :: 0 <= i < |reqs| ==> !Writes(reqs[i], k)
    ensures k in Run(m, reqs).store <==> k in m
    ensures k in m ==> Run(m, reqs).store[k] == m[k]
    decreases |reqs|
  {
    if reqs != [] {
      RunFrame(Dispatch(m, reqs[0]).store, reqs[1..], k);
    }
  }

  /** A run of GETs and lists never changes the store. */
  lemma {:induction false} ReadsKeepStore(m: Catalogue, reqs: seq<Request>)
    requires forall i :: 0 <= i < |reqs| ==> reqs[i].ListAll? || reqs[i].GetById?
    ensures Run(m, reqs).store == m
    decreases |reqs|
  {
    if reqs != [] {
      ReadsKeepStore(m, reqs[1..]);
    }
  }

  /** POST /fruit/fapple then GET /fruit/fapple: 201 with the fruit, then 200 with it. */
  lemma CreateThenGetScenario()
    ensures var apple := Fruit("Apple", 10);
            Run(map[], [PostById("fapple", apple), GetById("fapple")]).responses
              == [Created("/fruit/fapple", apple), Ok(apple)]
  {
    var apple := Fruit("Apple", 10);
    var reqs := [PostById("fapple", apple), GetById("fapple")];
    var m1 := map["fapple" := apple];
    assert Dispatch(map[], reqs[0]) == Handled(m1, Created("/fruit/fapple", apple));
    assert reqs[1..] == [GetById("fapple")];
    assert ValidId("fapple");
    assert Run(m1, reqs[1..]).responses == [Ok(apple)];
  }

  /** POST /fruit/fapple twice: the second is the duplicate-id problem. */
  lemma DuplicateCreateScenario()
    ensures var apple := Fruit("Apple", 10);
            Run(map[], [PostById("fapple", apple), PostById("fapple", apple)]).responses
              == [Created("/fruit/fapple", apple), IdProblem(DuplicateIdMessage)]
  {
    var apple := Fruit("Apple", 10);
    var reqs := [PostById("fapple", apple), PostById("fapple", apple)];
    var m1 := map["fapple" := apple];
    assert Dispatch(map[], reqs[0]) == Handled(m1, Created("/fruit/fapple", apple));
    assert reqs[1..] == [PostById("fapple", apple)];
    assert Run(m1, reqs[1..]).responses == [IdProblem(DuplicateIdMessage)];
  }

  /** GET /fruit/fmissing on an empty store: 404. */
  lemma MissingGetScenario()
    ensures Run(map[], [GetById("fmissing")]).responses == [Problem(404)]
  {
  }

  /** POST does not validate the id: an entry stored under "apple" is created,
      then refused by GET /fruit/{id}, yet shown by GET /fruit. */
  lemma UnvalidatedCreateScenario()
    ensures var apple := Fruit("Apple", 10);
            Run(map[], [PostById("apple", apple), GetById("apple"), ListAll]).responses
              == [Created("/fruit/apple", apple), InvalidIdProblem(), Snapshot(map["apple" := apple])]
  {
    var apple := Fruit("Apple", 10);
    var reqs := [PostById("apple", apple), GetById("apple"), ListAll];
    var m1 := map["apple" := apple];
    assert Dispatch(map[], reqs[0]) == Handled(m1, Created("/fruit/apple", apple));
    assert reqs[1..] == [GetById("apple"), ListAll];
    assert reqs[1..][1..] == [ListAll];
    assert !ValidId("apple");
    assert Run(m1, reqs[1..][1..]).responses == [Snapshot(m1)];
    assert Run(m1, reqs[1..]).responses == [InvalidIdProblem(), Snapshot(m1)];
  }
}
