/** `RouteCollector` itself: an object holding `$routes` (method => list of chunk
    objects) and `$prefix`, whose methods update both in place. Each method is
    proved against the value-level specification: `addRoute` against
    `RouteTable.Register`, the verb helpers, `prefix` and a group body against
    `Facade.Step` and `Facade.Run`. */
module Collector {
  import opened Chunks
  import opened RouteTable
  import Facade
  import Paths

  class RouteCollector {
    /** The acceptance rule of every chunk this collector creates. */
    const rule: ChunkRule
    /** The route parser (`RouteParser::parse`). */
    const parse: string -> Pattern

    var routes: map<Method, seq<Chunk>>
    var prefix: string

    /** The routes held by each chunk of `routes`, as a value. */
    ghost var table: Table
    /** Where each chunk sits: no chunk object is shared between two places. */
    ghost var slot: map<Chunk, (Method, nat)>
    /** The chunk objects the collector owns. */
    ghost var Repr: set<Chunk>

    /** The chunk at position `i` of method `m`'s list is owned by the collector,
        sits at that place only, follows the collector's rule and holds the
        routes `table` records there. */
    ghost predicate Holds(m: Method, i: nat)
      reads this`routes, this`table, this`slot, this`Repr, Repr
    {
      && m in routes && m in table && i < |routes[m]| && i < |table[m]|
      && routes[m][i] in Repr
      && routes[m][i] in slot && slot[routes[m][i]] == (m, i)
      && routes[m][i].rule == rule
      && routes[m][i].routes == table[m][i]
    }

    /** `routes` and `table` have the same methods and list lengths, every list is
        non-empty and every place holds its chunk. `$prefix` plays no part. */
    ghost predicate Valid()
      reads this`routes, this`table, this`slot, this`Repr, Repr
    {
      && Lists(table)
      && routes.Keys == table.Keys
      && (forall m :: m in routes ==> |routes[m]| == |table[m]|)
      && (forall m, i :: m in routes && 0 <= i < |routes[m]| ==> Holds(m, i))
    }

    /** The collector's state as the specification sees it. */
    ghost function Snapshot(): Facade.State
      reads this
    {
      Facade.State(table, prefix)
    }

    /** What the collector was built with. */
    function Env(): Facade.Env {
      Facade.Env(rule, parse)
    }

    constructor (rule: ChunkRule, parse: string -> Pattern)
      ensures Valid() && Repr == {}
      ensures this.rule == rule && this.parse == parse
      ensures table == map[] && prefix == ""
    {
      this.rule := rule;
      this.parse := parse;
      routes := map[];
      prefix := "";
      table := map[];
      slot := map[];
      Repr := {};
    }

    /** `$this->routes[$method] = [new NumberBasedChunk()]` unless the method has
        a list already. */
    method Open(m: Method)
      requires Valid()
      modifies this
      ensures Valid() && fresh(Repr - old(Repr))
      ensures m in routes && table == old(table)[m := ListFor(old(table), m)]
      ensures prefix == old(prefix)
    {
      if m !in routes {
        var c := new Chunk(rule);
        routes := routes[m := [c]];
        table := table[m := [[]]];
        slot := slot[c := (m, 0)];
        Repr := Repr + {c};
        forall k, i | k in routes && 0 <= i < |routes[k]| ensures Holds(k, i) {
          if k != m {
            assert old(Holds(k, i));
          }
        }
      } else {
        assert table == table[m := table[m]];
      }
    }

    /** `end($this->routes[$method])->addRoute($routeInstance)`: only the last
        chunk of the list is offered the route, and only it can change. */
    method OfferLast(m: Method, r: Route) returns (accepted: bool)
      requires Valid() && m in routes && r.verb == m
      modifies this, routes[m][|routes[m]| - 1]
      ensures Valid() && Repr == old(Repr)
      ensures var o := Offer(rule, old(table)[m], r);
              table == old(table)[m := o.chunks] && accepted == o.accepted
      ensures routes == old(routes) && prefix == old(prefix)
    {
      var cs := routes[m];
      var n := |cs|;
      var last := cs[n - 1];
      ghost var held := table[m];
      assert Holds(m, n - 1);
      accepted := last.AddRoute(r);
      if accepted {
        table := table[m := held[..n - 1] + [Last(held) + [r]]];
      }
      forall k, i | k in routes && 0 <= i < |routes[k]| ensures Holds(k, i) {
        if (k, i) != (m, n - 1) {
          assert old(Holds(k, i));
          assert slot[routes[k][i]] != slot[last];
          if k == m {
            assert table[m][i] == held[i];
          }
        }
      }
    }

    /** `$this->routes[$method][] = new NumberBasedChunk()`. */
    method Append(m: Method)
      requires Valid() && m in routes
      modifies this
      ensures Valid() && fresh(Repr - old(Repr))
      ensures table == old(table)[m := old(table)[m] + [[]]]
      ensures m in routes && |routes[m]| > 0 && fresh(routes[m][|routes[m]| - 1])
      ensures prefix == old(prefix)
    {
      var c := new Chunk(rule);
      var n := |routes[m]|;
      ghost var held := table[m];
      routes := routes[m := routes[m] + [c]];
      table := table[m := table[m] + [[]]];
      slot := slot[c := (m, n)];
      Repr := Repr + {c};
      forall k, i | k in routes && 0 <= i < |routes[k]| ensures Holds(k, i) {
        if (k, i) != (m, n) {
          assert old(Holds(k, i));
          if k == m {
            assert table[m][i] == held[i];
          }
        }
      }
    }

    /** `$this->routes[$method][] = $lastChunk = new NumberBasedChunk()`, then
        `$lastChunk->addRoute($routeInstance)`: the fresh chunk stays appended
        whether or not it takes the route. */
    method OfferFresh(m: Method, r: Route) returns (accepted: bool)
      requires Valid() && m in routes && r.verb == m
      modifies this
      ensures Valid() && fresh(Repr - old(Repr))
      ensures var o := Offer(rule, old(table)[m] + [[]], r);
              table == old(table)[m := o.chunks] && accepted == o.accepted
      ensures prefix == old(prefix)
    {
      Append(m);
      accepted := OfferLast(m, r);
    }

    /** One pass of `addRoute`'s loop for method `m`: open the list if needed,
        offer the route to the last chunk and, if it refuses, to a fresh chunk
        appended to the list. */
    method PlaceRoute(m: Method, r: Route) returns (accepted: bool)
      requires Valid() && r.verb == m
      modifies this, Repr
      ensures Valid() && fresh(Repr - old(Repr))
      ensures var p := Place(rule, ListFor(old(table), m), r);
              table == old(table)[m := p.chunks] && accepted == p.accepted
      ensures prefix == old(prefix)
    {
      PlaceByOffers(rule, ListFor(table, m), r);
      Open(m);
      assert Holds(m, |routes[m]| - 1);
      accepted := OfferLast(m, r);
      if !accepted {
        accepted := OfferFresh(m, r);
      }
    }

    /** `addRoute($methods, $route, $handler)`: the route is parsed and placed for
        each method in turn; the call fails (the source throws "Your route is
        too long") as soon as a fresh chunk refuses it, leaving what was done so far. */
    method AddRoute<H>(methods: seq<Method>, route: string, handler: H) returns (ok: bool)
      requires Valid()
      modifies this, Repr
      ensures Valid() && fresh(Repr - old(Repr))
      ensures var g := Register(rule, old(table), methods, parse(route));
              table == g.table && ok == g.ok
      ensures prefix == old(prefix)
    {
      var pattern := parse(route);
      var i := 0;
      while i < |methods|
        invariant 0 <= i <= |methods|
        invariant Valid() && fresh(Repr - old(Repr))
        invariant Register(rule, old(table), methods, pattern) == Register(rule, table, methods[i..], pattern)
        invariant prefix == old(prefix)
      {
        var m := methods[i];
        assert methods[i..][0] == m && methods[i..][1..] == methods[i + 1..];
        RegisterFirst(rule, table, methods[i..], pattern);
        var accepted := PlaceRoute(m, Route(m, pattern));
        if !accepted {
          return false;
        }
        i := i + 1;
      }
      return true;
    }

    /** `prefix($prefix, $group)`: set `$prefix` (an absolute prefix replaces the
        current one, a relative one is appended to it), run the group, then set
        `$prefix` to '' whatever it was before. */
    method Prefix<H>(p: string, group: seq<Facade.Call<H>>) returns (ok: bool)
      requires Valid() && |p| > 0 && Facade.CallsOk(group)
      modifies this, Repr
      ensures Valid() && fresh(Repr - old(Repr))
      ensures var inner := Facade.Run(Env(), Facade.State(old(table), Paths.Prefixy(old(prefix), p)), group);
              ok == inner.ok && table == inner.state.table && prefix == (if ok then "" else inner.state.prefix)
      decreases Facade.Prefix(p, group), 0
    {
      prefix := Paths.Prefixy(prefix, p);
      ok := Run(group);
      if ok {
        prefix := "";
      }
    }

    /** The group closure's body: its calls in order, each on the collector; an
        exception ends the body. */
    method Run<H>(calls: seq<Facade.Call<H>>) returns (ok: bool)
      requires Valid() && Facade.CallsOk(calls)
      modifies this, Repr
      ensures Valid() && fresh(Repr - old(Repr))
      ensures Facade.Outcome(Snapshot(), ok) == Facade.Run(Env(), old(Snapshot()), calls)
      decreases calls, 2
    {
      var i := 0;
      ok := true;
      while i < |calls|
        invariant 0 <= i <= |calls| && Facade.CallsOk(calls[i..])
        invariant Valid() && fresh(Repr - old(Repr))
        invariant Facade.Run(Env(), old(Snapshot()), calls) == Facade.Run(Env(), Snapshot(), calls[i..])
        decreases |calls| - i
      {
        assert calls[i..][0] == calls[i] && calls[i..][1..] == calls[i + 1..];
        ok := Exec(calls[i]);
        if !ok {
          return;
        }
        i := i + 1;
      }
    }

    /** One statement of a group body: an `addRoute`, a verb helper or a nested
        `prefix` call. */
    method Exec<H>(c: Facade.Call<H>) returns (ok: bool)
      requires Valid() && Facade.CallOk(c)
      modifies this, Repr
      ensures Valid() && fresh(Repr - old(Repr))
      ensures Facade.Outcome(Snapshot(), ok) == Facade.Step(Env(), old(Snapshot()), c)
      decreases c, 1
    {
      match c {
        case AddRoute(methods, route, handler) =>
          ok := AddRoute(methods, route, handler);
        case VerbRoute(v, route, handler) =>
          ok := Helper(v, route, handler);
        case Prefix(p, group) =>
          Facade.PrefixResets(Env(), Snapshot(), p, group);
          ok := Prefix(p, group);
      }
    }

    /** The verb helper for `v`. */
    method Helper<H>(v: Facade.Verb, route: string, handler: H) returns (ok: bool)
      requires Valid() && |route| > 0
      modifies this, Repr
      ensures Valid() && fresh(Repr - old(Repr))
      ensures Facade.Outcome(Snapshot(), ok) == Facade.Step(Env(), old(Snapshot()), Facade.VerbRoute(v, route, handler))
    {
      match v
      case Get => ok := Get(route, handler);
      case Post => ok := Post(route, handler);
      case Put => ok := Put(route, handler);
      case Patch => ok := Patch(route, handler);
      case Delete => ok := Delete(route, handler);
      case Options => ok := Options(route, handler);
    }

    /** `get($route, $handler)`: `addRoute(GET, prefixy($route), $handler)`. */
    method Get<H>(route: string, handler: H) returns (ok: bool)
      requires Valid() && |route| > 0
      modifies this, Repr
      ensures Valid() && fresh(Repr - old(Repr))
      ensures Facade.Outcome(Snapshot(), ok) == Facade.Step(Env(), old(Snapshot()), Facade.VerbRoute(Facade.Get, route, handler))
    {
      ok := AddRoute([Facade.MethodOf(Facade.Get)], Paths.Prefixy(prefix, route), handler);
    }

    /** `post($route, $handler)`: `addRoute(POST, prefixy($route), $handler)`. */
    method Post<H>(route: string, handler: H) returns (ok: bool)
      requires Valid() && |route| > 0
      modifies this, Repr
      ensures Valid() && fresh(Repr - old(Repr))
      ensures Facade.Outcome(Snapshot(), ok) == Facade.Step(Env(), old(Snapshot()), Facade.VerbRoute(Facade.Post, route, handler))
    {
      ok := AddRoute([Facade.MethodOf(Facade.Post)], Paths.Prefixy(prefix, route), handler);
    }

    /** `put($route, $handler)`: `addRoute(PUT, prefixy($route), $handler)`. */
    method Put<H>(route: string, handler: H) returns (ok: bool)
      requires Valid() && |route| > 0
      modifies this, Repr
      ensures Valid() && fresh(Repr - old(Repr))
      ensures Facade.Outcome(Snapshot(), ok) == Facade.Step(Env(), old(Snapshot()), Facade.VerbRoute(Facade.Put, route, handler))
    {
      ok := AddRoute([Facade.MethodOf(Facade.Put)], Paths.Prefixy(prefix, route), handler);
    }

    /** `patch($route, $handler)`: `addRoute(PATCH, prefixy($route), $handler)`. */
    method Patch<H>(route: string, handler: H) returns (ok: bool)
      requires Valid() && |route| > 0
      modifies this, Repr
      ensures Valid() && fresh(Repr - old(Repr))
      ensures Facade.Outcome(Snapshot(), ok) == Facade.Step(Env(), old(Snapshot()), Facade.VerbRoute(Facade.Patch, route, handler))
    {
      ok := AddRoute([Facade.MethodOf(Facade.Patch)], Paths.Prefixy(prefix, route), handler);
    }

    /** `delete($route, $handler)`: `addRoute(DELETE, prefixy($route), $handler)`. */
    method Delete<H>(route: string, handler: H) returns (ok: bool)
      requires Valid() && |route| > 0
      modifies this, Repr
      ensures Valid() && fresh(Repr - old(Repr))
      ensures Facade.Outcome(Snapshot(), ok) == Facade.Step(Env(), old(Snapshot()), Facade.VerbRoute(Facade.Delete, route, handler))
    {
      ok := AddRoute([Facade.MethodOf(Facade.Delete)], Paths.Prefixy(prefix, route), handler);
    }

    /** `options($route, $handler)`: `addRoute(OPTIONS, prefixy($route), $handler)`. */
    method Options<H>(route: string, handler: H) returns (ok: bool)
      requires Valid() && |route| > 0
      modifies this, Repr
      ensures Valid() && fresh(Repr - old(Repr))
      ensures Facade.Outcome(Snapshot(), ok) == Facade.Step(Env(), old(Snapshot()), Facade.VerbRoute(Facade.Options, route, handler))
    {
      ok := AddRoute([Facade.MethodOf(Facade.Options)], Paths.Prefixy(prefix, route), handler);
    }

    /** The chunk list `make` hands to the dispatcher: `$this->routes[$method]`,
        which the source reads without checking that the method was registered. */
    method Make(m: Method) returns (chunks: seq<Chunk>)
      requires Valid() && m in routes
      ensures |chunks| == |table[m]| > 0
      ensures forall i :: 0 <= i < |chunks| ==> chunks[i].routes == table[m][i]
    {
      chunks := routes[m];
      forall i | 0 <= i < |chunks| ensures chunks[i].routes == table[m][i] {
        assert Holds(m, i);
      }
    }
  }
}
