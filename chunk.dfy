/** Routes and the chunks they are grouped into. A chunk's real acceptance rule
    (the regular-expression budget of `NumberBasedChunk`) is not part of this model:
    a chunk here holds at most `capacity` routes and refuses any route its rule does
    not admit, which is the case a fresh chunk can also refuse. */
module Chunks {

  /** An HTTP method name such as "GET". */
  type Method = string

  /** One parsed piece of a route pattern: literal text, or a placeholder with an
      optional name and an optional custom sub-pattern (empty means the default). */
  datatype Segment =
    | Literal(text: string)
    | Placeholder(name: string, regex: string)

  /** What the route parser returns for a route string. */
  type Pattern = seq<Segment>

  /** `new Route($method, $pattern)`: built from the method and the parsed path
      only; the handler is not part of it. */
  datatype Route = Route(verb: Method, pattern: Pattern)

  /** The chunk's acceptance rule: the number of routes one chunk may hold, and
      which routes can be embedded in a chunk at all. */
  datatype ChunkRule = ChunkRule(capacity: nat, admits: Route -> bool)

  /** Whether a chunk already holding `held` accepts route `r`. */
  predicate Fits(rule: ChunkRule, held: seq<Route>, r: Route) {
    |held| < rule.capacity && rule.admits(r)
  }

  /** A chunk that refuses a route only because it is full would accept it if it
      were fresh; a route a fresh chunk refuses is refused by every chunk. */
  lemma FitsFreshest(rule: ChunkRule, held: seq<Route>, r: Route)
    ensures Fits(rule, held, r) ==> Fits(rule, [], r)
    ensures !Fits(rule, [], r) ==> !Fits(rule, held, r)
  {
  }

  /** A chunk of routes (`NumberBasedChunk`), updated in place by `AddRoute`. */
  class Chunk {
    const rule: ChunkRule
    var routes: seq<Route>

    constructor (rule: ChunkRule)
      ensures this.rule == rule && routes == []
    {
      this.rule := rule;
      routes := [];
    }

    /** Offers a route to the chunk: it is appended when the chunk has room and
        admits it, otherwise the chunk is left as it was and false is returned. */
    method AddRoute(r: Route) returns (ok: bool)
      modifies this
      ensures ok <==> Fits(rule, old(routes), r)
      ensures routes == if ok then old(routes) + [r] else old(routes)
    {
      ok := |routes| < rule.capacity && rule.admits(r);
      if ok {
        routes := routes + [r];
      }
    }
  }
}
