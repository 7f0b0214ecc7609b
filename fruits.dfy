/** The values the fruit catalogue works with: the Fruit record, the store's
    contents, and the typed results the route handlers and filters return. */
module Fruits {

  /** A catalogue entry. The id is not part of the record: it is the store's key. */
  datatype Fruit = Fruit(name: string, stock: int)

  /** The contents of the shared store, from id to fruit. */
  type Catalogue = map<string, Fruit>

  /** The typed results of the endpoints, before they are written to the wire. */
  datatype Response =
    | Snapshot(entries: Catalogue)                          // GET /fruit: the store's entries, taken when the request is served
    | Ok(fruit: Fruit)                                      // TypedResults.Ok
    | Problem(status: int)                                  // Results.Problem with a status code
    | Created(location: string, fruit: Fruit)               // TypedResults.Created
    | ValidationProblem(errors: map<string, seq<string>>)   // Results.ValidationProblem
    | NoContent                                             // Results.NoContent

  const InvalidIdMessage: string := "Invalid format. Id must start with 'f'"
  const DuplicateIdMessage: string := "Fruit with this ID already exists."

  /** A validation problem that blames the "id" field with one message. */
  function IdProblem(message: string): (r: Response)
    ensures r.ValidationProblem? && r.errors.Keys == {"id"} && r.errors["id"] == [message]
  {
    ValidationProblem(map["id" := [message]])
  }

  /** The result of a handler that may change the store: the new store and the response. */
  datatype Handled = Handled(store: Catalogue, response: Response)

  /** m' agrees with m at every key except possibly `id`. */
  ghost predicate SameExceptAt(m: Catalogue, m': Catalogue, id: string)
  {
    forall k :: k != id ==> (k in m' <==> k in m) && (k in m ==> m'[k] == m[k])
  }
}
