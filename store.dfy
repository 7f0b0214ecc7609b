/** The shared fruit store and its endpoints, as an object whose map the
    writing handlers update in place. */
module FruitStore {
  import opened Fruits
  import opened Filters
  import opened Handlers
  import opened Routes

  class Store {
    /** The process-wide dictionary from id to fruit. */
    var fruit: Catalogue

    /** The store starts empty. */
    constructor ()
      ensures fruit == map[]
    {
      fruit := map[];
    }

    /** GET /fruit: the current contents; nothing changes. */
    method List() returns (r: Response)
      ensures r == Snapshot(fruit)
    {
      r := Snapshot(fruit);
    }

    /** GET /fruit/{id} through its filters; nothing changes. */
    method Get(id: string) returns (r: Response)
      ensures !ValidId(id) ==> r == InvalidIdProblem()
      ensures ValidId(id) && id in fruit ==> r == Ok(fruit[id])
      ensures ValidId(id) && id !in fruit ==> r == Problem(404)
    {
      r := GetRoute(fruit, id);
    }

    /** POST /fruit/{id}: adds the fruit only when the id is absent. */
    method Create(id: string, f: Fruit) returns (r: Response)
      modifies this
      ensures id !in old(fruit) ==> fruit == old(fruit)[id := f] && r == Created("/fruit/" + id, f)
      ensures id in old(fruit) ==> fruit == old(fruit) && r == IdProblem(DuplicateIdMessage)
      ensures Handled(fruit, r) == CreateFruit(old(fruit), id, f)
    {
      if id in fruit {
        r := IdProblem(DuplicateIdMessage);
      } else {
        fruit := fruit[id := f];
        r := Created("/fruit/" + id, f);
      }
    }

    /** PUT /fruit/{id}: stores the fruit whether or not the id was present. */
    method Replace(id: string, f: Fruit) returns (r: Response)
      modifies this
      ensures fruit == old(fruit)[id := f]
      ensures r == NoContent
      ensures Handled(fruit, r) == ReplaceFruit(old(fruit), id, f)
    {
      fruit := fruit[id := f];
      r := NoContent;
    }

    /** DELETE /fruit/{id}: removes the entry if there is one. */
    method Delete(id: string) returns (r: Response)
      modifies this
      ensures fruit == old(fruit) - {id}
      ensures r == NoContent
      ensures Handled(fruit, r) == DeleteFruit(old(fruit), id)
    {
      fruit := fruit - {id};
      r := NoContent;
    }

    /** Serves one request with the endpoint its route selects; the store
      and response are those the route table prescribes. */
    method Serve(req: Request) returns (r: Response)
      modifies this
      ensures Handled(fruit, r) == Dispatch(old(fruit), req)
    {
      match req
      case ListAll => r := List();
      case GetById(id) => r := Get(id);
      case PostById(id, f) => r := Create(id, f);
      case PutById(id, f) => r := Replace(id, f);
      case DeleteById(id) => r := Delete(id);
    }
  }
}
