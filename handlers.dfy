/** The five route handlers of /fruit as functions of the store's contents:
    each returns the response and, for the writing ones, the new contents. */
module Handlers {
  import opened Fruits

  /** GET /fruit: the whole store. */
  function ListFruit(m: Catalogue): (r: Response)
    ensures r.Snapshot? && r.entries == m
  {
    Snapshot(m)
  }

  /** GET /fruit/{id} without its filters: the stored fruit, or a 404 problem. */
  function GetFruit(m: Catalogue, id: string): (r: Response)
    ensures r.Ok? <==> id in m
    ensures r.Ok? ==> r.fruit == m[id]
    ensures id !in m ==> r == Problem(404)
  {
    if id in m then Ok(m[id]) else Problem(404)
  }

  /** POST /fruit/{id}: insert if absent (TryAdd). */
  function CreateFruit(m: Catalogue, id: string, fruit: Fruit): (h: Handled)
    ensures id !in m ==> id in h.store && h.store[id] == fruit && SameExceptAt(m, h.store, id)
    ensures id !in m ==> h.response == Created("/fruit/" + id, fruit)
    ensures id in m ==> h.store == m
    ensures id in m ==> h.response.ValidationProblem?
                        && h.response.errors == map["id" := ["Fruit with this ID already exists."]]
  {
    if id !in m then Handled(m[id := fruit], Created("/fruit/" + id, fruit))
    else Handled(m, IdProblem(DuplicateIdMessage))
  }

  /** PUT /fruit/{id}: unconditional overwrite (indexer assignment). */
  function ReplaceFruit(m: Catalogue, id: string, fruit: Fruit): (h: Handled)
    ensures id in h.store && h.store[id] == fruit && SameExceptAt(m, h.store, id)
    ensures h.response == NoContent
  {
    Handled(m[id := fruit], NoContent)
  }

  /** DELETE /fruit/{id}: remove if present (TryRemove), a no-op otherwise. */
  function DeleteFruit(m: Catalogue, id: string): (h: Handled)
    ensures id !in h.store && SameExceptAt(m, h.store, id)
    ensures id !in m ==> h.store == m
    ensures h.response == NoContent
  {
    Handled(m - {id}, NoContent)
  }

  /** A fruit just created under a fresh id is what GET returns for it. */
  lemma CreateThenGet(m: Catalogue, id: string, fruit: Fruit)
    requires id !in m
    ensures GetFruit(CreateFruit(m, id, fruit).store, id) == Ok(fruit)
  {
  }

  /** A second POST to the same id, with any fruit, is rejected and keeps the first fruit. */
  lemma CreateTwiceKeepsFirst(m: Catalogue, id: string, first: Fruit, second: Fruit)
    requires id !in m
    ensures var m1 := CreateFruit(m, id, first).store;
            && CreateFruit(m1, id, second) == Handled(m1, IdProblem(DuplicateIdMessage))
            && GetFruit(m1, id) == Ok(first)
  {
  }

  /** PUT is last-write-wins: two PUTs to one id leave what the second PUT alone leaves. */
  lemma ReplaceLastWriteWins(m: Catalogue, id: string, a: Fruit, b: Fruit)
    ensures ReplaceFruit(ReplaceFruit(m, id, a).store, id, b) == ReplaceFruit(m, id, b)
    ensures GetFruit(ReplaceFruit(ReplaceFruit(m, id, a).store, id, b).store, id) == Ok(b)
  {
  }

  /** DELETE is idempotent, and after it GET reports 404. */
  lemma DeleteIdempotent(m: Catalogue, id: string)
    ensures DeleteFruit(DeleteFruit(m, id).store, id) == DeleteFruit(m, id)
    ensures GetFruit(DeleteFruit(m, id).store, id) == Problem(404)
  {
  }
}
