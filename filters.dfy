/** Endpoint filters: the id validator, the logging filter of the GET-by-id
    route, and the way a route's filters are wrapped around its handler. */
module Filters {
  import opened Fruits

  /** The rest of the chain, called with the request's id argument. */
  type Next = string -> Response

  /** An endpoint filter: it sees the id argument and the rest of the chain. */
  type Filter = (string, Next) -> Response

  /** An id is accepted when it is non-empty and its first character is 'f'
      (an ordinal, case-sensitive comparison). */
  predicate ValidId(id: string)
  {
    |id| > 0 && id[0] == 'f'
  }

  /** The problem returned for an id that fails ValidId. */
  function InvalidIdProblem(): Response
  {
    IdProblem(InvalidIdMessage)
  }

  /** ValidationHelper.ValidateId: stops the request with a validation problem
      when the id is malformed, otherwise returns what the rest of the chain
      returns. */
  function ValidateId(id: string, next: Next): (r: Response)
    ensures (|id| == 0 || id[0] != 'f') ==>
              r.ValidationProblem? && r.errors == map["id" := ["Invalid format. Id must start with 'f'"]]
    ensures |id| > 0 && id[0] == 'f' ==> r == next(id)
  {
    if !ValidId(id) then InvalidIdProblem() else next(id)
  }

  /** The inline logging filter of GET /fruit/{id}: it logs before and after
      and hands back the inner result. Only the hand-back is modelled. */
  function LogAndForward(id: string, next: Next): (r: Response)
  {
    next(id)
  }

  /** A filter that never stops the request and never alters the result. */
  ghost predicate PassesThrough(f: Filter)
  {
    forall id, next :: f(id, next) == next(id)
  }

  /** The request delegate of a route with `filters` added in this order: the
      filter added first is the outermost, the handler the innermost link. */
  function Chain(filters: seq<Filter>, endpoint: Next): Next
    decreases |filters|
  {
    if filters == [] then endpoint
    else
      var rest := Chain(filters[1..], endpoint);
      (id: string) => filters[0](id, rest)
  }

  /** The logging filter is a pass-through. */
  lemma LogAndForwardPassesThrough()
    ensures PassesThrough(LogAndForward)
  {
  }

  /** Filters that all pass through leave the handler's result unchanged. */
  lemma {:induction false} ChainOfPassThroughs(filters: seq<Filter>, endpoint: Next, id: string)
    requires forall i :: 0 <= i < |filters| ==> PassesThrough(filters[i])
    ensures Chain(filters, endpoint)(id) == endpoint(id)
    decreases |filters|
  {
    if filters != [] {
      var rest := Chain(filters[1..], endpoint);
      assert PassesThrough(filters[0]);
      assert Chain(filters, endpoint)(id) == filters[0](id, rest) == rest(id);
      ChainOfPassThroughs(filters[1..], endpoint, id);
    }
  }

  /** With ValidateId outermost, a malformed id yields the validation problem
      whatever the inner filters and the handler are: none of them runs. */
  lemma ValidateIdShortCircuits(inner: seq<Filter>, endpoint: Next, id: string)
    requires !ValidId(id)
    ensures Chain([ValidateId] + inner, endpoint)(id) == InvalidIdProblem()
  {
    var filters := [ValidateId] + inner;
    assert filters[1..] == inner;
    var rest := Chain(inner, endpoint);
    assert Chain(filters, endpoint)(id) == ValidateId(id, rest);
  }

  /** With ValidateId outermost and pass-through filters inside it, a request
      gets exactly what ValidateId gives when wrapped directly around the handler. */
  lemma ValidatedChain(inner: seq<Filter>, endpoint: Next, id: string)
    requires forall i :: 0 <= i < |inner| ==> PassesThrough(inner[i])
    ensures Chain([ValidateId] + inner, endpoint)(id) == ValidateId(id, endpoint)
  {
    var filters := [ValidateId] + inner;
    assert filters[1..] == inner;
    var rest := Chain(inner, endpoint);
    assert Chain(filters, endpoint)(id) == ValidateId(id, rest);
    if ValidId(id) {
      ChainOfPassThroughs(inner, endpoint, id);
    }
  }
}
