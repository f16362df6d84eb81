/** The registration façade of `RouteCollector` as a value-level specification:
    the calls a group body can make (`addRoute`, the verb helpers, a nested
    `prefix`) and their effect on the route table and on the `$prefix` field.
    The collector's methods are proved against `Step` and `Run`. */
module Facade {
  import opened Chunks
  import opened RouteTable
  import Paths

  /** The verbs that have a helper method on the collector. */
  datatype Verb = Get | Post | Put | Patch | Delete | Options

  /** The request-method string each helper registers under (`RequestMethod::GET`,
      ...): a non-empty upper-case token. That the six differ is MethodOfInjective. */
  function MethodOf(v: Verb): (m: Method)
    ensures |m| > 0 && forall k :: 0 <= k < |m| ==> 'A' <= m[k] <= 'Z'
  {
    match v
    case Get => "GET"
    case Post => "POST"
    case Put => "PUT"
    case Patch => "PATCH"
    case Delete => "DELETE"
    case Options => "OPTIONS"
  }

  /** Each helper registers under its own method name. */
  lemma MethodOfInjective(v: Verb, w: Verb)
    ensures MethodOf(v) == MethodOf(w) <==> v == w
  {
  }

  /** One registration a group body makes, with the handler it passes along. */
  datatype Call<H> =
    | AddRoute(methods: seq<Method>, route: string, handler: H)
    | VerbRoute(verb: Verb, route: string, handler: H)
    | Prefix(prefix: string, group: seq<Call<H>>)

  /** What the collector is built with: the chunk rule of every chunk it creates
      and the route parser. */
  datatype Env = Env(rule: ChunkRule, parse: string -> Pattern)

  /** The collector's state: `$routes` (as a table of route contents) and `$prefix`. */
  datatype State = State(table: Table, prefix: string)

  /** The state after some calls, and whether they all returned normally. */
  datatype Outcome = Outcome(state: State, ok: bool)

  /** The strings the source indexes with `[0]` unguarded are non-empty. */
  predicate CallOk<H>(c: Call<H>)
    decreases c
  {
    match c
    case AddRoute(_, _, _) => true
    case VerbRoute(_, route, _) => |route| > 0
    case Prefix(p, group) => |p| > 0 && CallsOk(group)
  }

  predicate CallsOk<H>(calls: seq<Call<H>>)
    decreases calls
  {
    calls == [] || (CallOk(calls[0]) && CallsOk(calls[1..]))
  }

  /** The effect of one call. A verb helper registers its verb for the route made
      absolute by `prefixy`; `addRoute` registers the route as given. `prefix`
      sets `$prefix` as `prefixy` would, runs the group, then sets it to '' (not
      back to the old value); an exception out of the group skips that reset. */
  function Step<H>(env: Env, st: State, c: Call<H>): (o: Outcome)
    requires CallOk(c) && Lists(st.table)
    ensures Lists(o.state.table)
    decreases c
  {
    match c
    case AddRoute(methods, route, _) =>
      var g := Register(env.rule, st.table, methods, env.parse(route));
      Outcome(State(g.table, st.prefix), g.ok)
    case VerbRoute(v, route, _) =>
      var g := Register(env.rule, st.table, [MethodOf(v)], env.parse(Paths.Prefixy(st.prefix, route)));
      Outcome(State(g.table, st.prefix), g.ok)
    case Prefix(p, group) =>
      var o := Run(env, State(st.table, Paths.Prefixy(st.prefix, p)), group);
      if o.ok then Outcome(State(o.state.table, ""), true) else o
  }

  /** The calls in order, stopping at the first one that throws. */
  function Run<H>(env: Env, st: State, calls: seq<Call<H>>): (o: Outcome)
    requires CallsOk(calls) && Lists(st.table)
    ensures Lists(o.state.table)
    decreases calls
  {
    if calls == [] then Outcome(st, true)
    else
      var o := Step(env, st, calls[0]);
      if o.ok then Run(env, o.state, calls[1..]) else o
  }

  // ---------------------------------------------------------------------------
  // Properties of the façade

  /** A verb helper is `addRoute` for its verb on the `prefixy`-ed route. */
  lemma VerbIsAddRoute<H>(env: Env, st: State, v: Verb, route: string, h: H)
    requires |route| > 0 && Lists(st.table)
    ensures Step(env, st, VerbRoute(v, route, h))
            == Step(env, st, AddRoute([MethodOf(v)], Paths.Prefixy(st.prefix, route), h))
  {
  }

  /** The handler is not stored: two calls that differ only in it have the same effect. */
  lemma HandlerNotStored<H>(env: Env, st: State, methods: seq<Method>, route: string, h1: H, h2: H)
    requires Lists(st.table)
    ensures Step(env, st, AddRoute(methods, route, h1)) == Step(env, st, AddRoute(methods, route, h2))
  {
  }

  /** `prefix` is not a stack: whatever the prefix was before, a `prefix` call that
      returns normally leaves it empty, and the group ran under the new prefix. */
  lemma PrefixResets<H>(env: Env, st: State, p: string, group: seq<Call<H>>)
    requires |p| > 0 && CallsOk(group) && Lists(st.table)
    ensures var o := Step(env, st, Prefix(p, group));
            var inner := Run(env, State(st.table, Paths.Prefixy(st.prefix, p)), group);
            o.ok == inner.ok && o.state.table == inner.state.table &&
            (o.ok ==> o.state.prefix == "") && (!o.ok ==> o == inner)
  {
  }

  /** Every value `$prefix` takes keeps the shape PathLike: empty, or starting with
      '/' and not ending with '/' unless it is the root. */
  lemma {:induction false} StepKeepsPathLike<H>(env: Env, st: State, c: Call<H>)
    requires CallOk(c) && Lists(st.table) && Paths.PathLike(st.prefix)
    ensures Paths.PathLike(Step(env, st, c).state.prefix)
    decreases c
  {
    match c
    case AddRoute(_, _, _) =>
    case VerbRoute(_, _, _) =>
    case Prefix(p, group) =>
      Paths.PrefixyPathLike(st.prefix, p);
      RunKeepsPathLike(env, State(st.table, Paths.Prefixy(st.prefix, p)), group);
  }

  lemma {:induction false} RunKeepsPathLike<H>(env: Env, st: State, calls: seq<Call<H>>)
    requires CallsOk(calls) && Lists(st.table) && Paths.PathLike(st.prefix)
    ensures Paths.PathLike(Run(env, st, calls).state.prefix)
    decreases calls
  {
    if calls != [] {
      StepKeepsPathLike(env, st, calls[0]);
      var o := Step(env, st, calls[0]);
      if o.ok {
        RunKeepsPathLike(env, o.state, calls[1..]);
      }
    }
  }

  /** Every call keeps the table well formed: chunks within capacity, and each route
      stored under the method it was built for. */
  lemma {:induction false} StepKeepsWellFormed<H>(env: Env, st: State, c: Call<H>)
    requires CallOk(c) && WellFormed(env.rule, st.table)
    ensures WellFormed(env.rule, Step(env, st, c).state.table)
    decreases c
  {
    match c
    case AddRoute(methods, route, _) =>
      RegisterKeepsWellFormed(env.rule, st.table, methods, env.parse(route));
    case VerbRoute(v, route, _) =>
      RegisterKeepsWellFormed(env.rule, st.table, [MethodOf(v)], env.parse(Paths.Prefixy(st.prefix, route)));
    case Prefix(p, group) =>
      RunKeepsWellFormed(env, State(st.table, Paths.Prefixy(st.prefix, p)), group);
  }

  lemma {:induction false} RunKeepsWellFormed<H>(env: Env, st: State, calls: seq<Call<H>>)
    requires CallsOk(calls) && WellFormed(env.rule, st.table)
    ensures WellFormed(env.rule, Run(env, st, calls).state.table)
    decreases calls
  {
    if calls != [] {
      StepKeepsWellFormed(env, st, calls[0]);
      var o := Step(env, st, calls[0]);
      if o.ok {
        RunKeepsWellFormed(env, o.state, calls[1..]);
      }
    }
  }

  /** A body whose calls all return normally keeps every chunk but the last full. */
  lemma {:induction false} StepKeepsPacked<H>(env: Env, st: State, c: Call<H>)
    requires CallOk(c) && WellFormed(env.rule, st.table) && Packed(env.rule, st.table)
    requires Step(env, st, c).ok
    ensures Packed(env.rule, Step(env, st, c).state.table)
    decreases c
  {
    match c
    case AddRoute(methods, route, _) =>
      RegisterKeepsPacked(env.rule, st.table, methods, env.parse(route));
    case VerbRoute(v, route, _) =>
      RegisterKeepsPacked(env.rule, st.table, [MethodOf(v)], env.parse(Paths.Prefixy(st.prefix, route)));
    case Prefix(p, group) =>
      RunKeepsPacked(env, State(st.table, Paths.Prefixy(st.prefix, p)), group);
  }

  lemma {:induction false} RunKeepsPacked<H>(env: Env, st: State, calls: seq<Call<H>>)
    requires CallsOk(calls) && WellFormed(env.rule, st.table) && Packed(env.rule, st.table)
    requires Run(env, st, calls).ok
    ensures Packed(env.rule, Run(env, st, calls).state.table)
    decreases calls
  {
    if calls != [] {
      StepKeepsPacked(env, st, calls[0]);
      StepKeepsWellFormed(env, st, calls[0]);
      var o := Step(env, st, calls[0]);
      RunKeepsPacked(env, o.state, calls[1..]);
    }
  }

  /** An exception out of the group skips the reset: `$prefix` keeps the value the
      group was running under. */
  lemma PrefixFailureKeepsPrefix<H>(env: Env, st: State, p: string, v: Verb, route: string, h: H)
    requires |p| > 0 && |route| > 0 && Lists(st.table)
    requires !env.rule.admits(Route(MethodOf(v), env.parse(Paths.Prefixy(Paths.Prefixy(st.prefix, p), route))))
    ensures var o := Step(env, st, Prefix(p, [VerbRoute(v, route, h)]));
            !o.ok && o.state.prefix == Paths.Prefixy(st.prefix, p)
  {
    var c := VerbRoute(v, route, h);
    var inner := State(st.table, Paths.Prefixy(st.prefix, p));
    var path := Paths.Prefixy(inner.prefix, route);
    RegisterOkIff(env.rule, inner.table, [MethodOf(v)], env.parse(path));
    var o := Step(env, inner, c);
    assert !o.ok && o.state.prefix == inner.prefix;
    assert [c][0] == c;
    assert Run(env, inner, [c]) == o;
  }

  /** Registering one verb on an empty table, with room in a fresh chunk. */
  lemma FirstRoute(rule: ChunkRule, m: Method, pattern: Pattern)
    requires rule.capacity >= 1 && rule.admits(Route(m, pattern))
    ensures Register(rule, map[], [m], pattern) == Registration(map[m := [[Route(m, pattern)]]], true)
  {
    var r := Route(m, pattern);
    var none: seq<Route> := [];
    assert Last([none]) == none && [none][..0] == [] && none + [r] == [r];
    assert Place(rule, [none], r).chunks == [[r]];
  }

  /** Registering one verb again, while its only chunk still has room. */
  lemma SecondRoute(rule: ChunkRule, m: Method, r1: Route, pattern: Pattern)
    requires rule.capacity >= 2 && rule.admits(Route(m, pattern))
    ensures Register(rule, map[m := [[r1]]], [m], pattern) == Registration(map[m := [[r1, Route(m, pattern)]]], true)
  {
    var r := Route(m, pattern);
    assert Last([[r1]]) == [r1] && [[r1]][..0] == [] && [r1] + [r] == [r1, r];
    assert Place(rule, [[r1]], r).chunks == [[r1, r]];
    assert map[m := [[r1]]][m := [[r1, r]]] == map[m := [[r1, r]]];
  }

  /** A verb helper on an empty table opens the verb's first chunk with the route. */
  lemma VerbFirstRoute<H>(env: Env, st: State, v: Verb, route: string, h: H)
    requires st.table == map[] && |route| > 0 && env.rule.capacity >= 1
    requires env.rule.admits(Route(MethodOf(v), env.parse(Paths.Prefixy(st.prefix, route))))
    ensures var r := Route(MethodOf(v), env.parse(Paths.Prefixy(st.prefix, route)));
            Step(env, st, VerbRoute(v, route, h)) == Outcome(State(map[MethodOf(v) := [[r]]], st.prefix), true)
  {
    FirstRoute(env.rule, MethodOf(v), env.parse(Paths.Prefixy(st.prefix, route)));
  }

  /** A verb helper adds to the verb's only chunk while it has room. */
  lemma VerbSecondRoute<H>(env: Env, st: State, v: Verb, route: string, h: H, r1: Route)
    requires st.table == map[MethodOf(v) := [[r1]]] && |route| > 0 && env.rule.capacity >= 2
    requires env.rule.admits(Route(MethodOf(v), env.parse(Paths.Prefixy(st.prefix, route))))
    ensures var r := Route(MethodOf(v), env.parse(Paths.Prefixy(st.prefix, route)));
            Step(env, st, VerbRoute(v, route, h)) == Outcome(State(map[MethodOf(v) := [[r1, r]]], st.prefix), true)
  {
    SecondRoute(env.rule, MethodOf(v), r1, env.parse(Paths.Prefixy(st.prefix, route)));
  }

  /** Running two calls is running the first and, if it returned normally, the second. */
  lemma RunTwo<H>(env: Env, st: State, a: Call<H>, b: Call<H>)
    requires CallOk(a) && CallOk(b) && Lists(st.table)
    ensures CallsOk([a, b])
    ensures var oa := Step(env, st, a);
            Run(env, st, [a, b]) == if oa.ok then Step(env, oa.state, b) else oa
  {
    assert [a, b][1..] == [b] && [b][1..] == [];
    assert CallsOk([b]);
    var oa := Step(env, st, a);
    if oa.ok {
      var ob := Step(env, oa.state, b);
      assert Run(env, ob.state, [b][1..]) == Outcome(ob.state, true);
    }
  }

  /** Running one call is that call's step. */
  lemma RunOne<H>(env: Env, st: State, c: Call<H>)
    requires CallOk(c) && Lists(st.table)
    ensures CallsOk([c]) && Run(env, st, [c]) == Step(env, st, c)
  {
    assert [c][1..] == [];
  }

  /** A path piece with no '/' at either end, such as "api" or "users/list". */
  predicate Piece(s: string) {
    |s| > 0 && s[0] != '/' && s[|s| - 1] != '/'
  }

  /** Whatever the prefix, an absolute "/users" stays "/users". */
  lemma AbsolutePiece(prefix: string, piece: string)
    requires Piece(piece)
    ensures Paths.Prefixy(prefix, "/" + piece) == "/" + piece
  {
    var absolute := "/" + piece;
    assert absolute[0] == '/';
    Paths.NormalizePiece(piece);
  }

  /** A relative "users" goes behind the prefix: "/api/users", or "/users" at the top. */
  lemma RelativePiece(prefix: string, piece: string)
    requires Piece(piece)
    ensures Paths.Prefixy(prefix, piece) == prefix + "/" + piece
  {
    var n := Paths.Normalize(piece);
    assert n == "/" + piece by {
      Paths.NormalizePiece(piece);
    }
    assert Paths.Prefixy(prefix, piece) == prefix + n;
  }

  /** Inside `prefix('/api', ...)`, an absolute route ("/users") ignores the
      prefix and a relative one ("users") is put under it ("/api/users");
      afterwards the prefix is empty again. */
  lemma PrefixGroupExample<H>(env: Env, api: string, users: string, h: H)
    requires Piece(api) && Piece(users)
    requires env.rule.capacity >= 2
    requires forall r :: env.rule.admits(r)
    ensures var calls := [Prefix("/" + api, [VerbRoute(Get, "/" + users, h), VerbRoute(Get, users, h)])];
            && CallsOk(calls)
            && var o := Run(env, State(map[], ""), calls);
            && o.ok && o.state.prefix == ""
            && o.state.table == map["GET" := [[Route("GET", env.parse("/" + users)),
                                               Route("GET", env.parse("/" + api + "/" + users))]]]
  {
    var absolute, relative := VerbRoute(Get, "/" + users, h), VerbRoute(Get, users, h);
    var m, prefix := MethodOf(Get), "/" + api;
    AbsolutePiece("", api);
    var path1, path2 := Paths.Prefixy(prefix, "/" + users), Paths.Prefixy(prefix, users);
    AbsolutePiece(prefix, users);
    RelativePiece(prefix, users);
    var r1, r2 := Route(m, env.parse(path1)), Route(m, env.parse(path2));
    var s1 := State(map[], prefix);
    VerbFirstRoute(env, s1, Get, "/" + users, h);
    var s2 := State(map[m := [[r1]]], prefix);
    VerbSecondRoute(env, s2, Get, users, h, r1);
    var s3 := State(map[m := [[r1, r2]]], prefix);
    RunTwo(env, s1, absolute, relative);
    var group := [absolute, relative];
    assert Run(env, s1, group) == Outcome(s3, true);
    PrefixResets(env, State(map[], ""), prefix, group);
    RunOne(env, State(map[], ""), Prefix(prefix, group));
  }

  /** A nested `prefix` does not restore the outer one: after the inner group the
      prefix is empty, so a later relative route of the outer group ("users") is
      registered at the top level ("/users") rather than under "/api". */
  lemma NestedPrefixNotRestored<H>(env: Env, api: string, v1: string, users: string, h: H)
    requires Piece(api) && Piece(v1) && Piece(users)
    requires env.rule.capacity >= 1
    requires forall r :: env.rule.admits(r)
    ensures var calls := [Prefix("/" + api, [Prefix("/" + v1, []), VerbRoute(Get, users, h)])];
            && CallsOk(calls)
            && var o := Run(env, State(map[], ""), calls);
            && o.ok && o.state.prefix == ""
            && o.state.table == map["GET" := [[Route("GET", env.parse("/" + users))]]]
  {
    var inner: Call<H> := Prefix("/" + v1, []);
    var relative := VerbRoute(Get, users, h);
    var m, prefix := MethodOf(Get), "/" + api;
    AbsolutePiece("", api);
    var path := Paths.Prefixy("", users);
    RelativePiece("", users);
    assert "" + "/" + users == "/" + users;
    var s1 := State(map[], prefix);
    // the inner group resets the prefix to '' instead of restoring "/api"
    var s2 := State(map[], "");
    assert Step(env, s1, inner) == Outcome(s2, true);
    VerbFirstRoute(env, s2, Get, users, h);
    var s3 := State(map[m := [[Route(m, env.parse(path))]]], "");
    RunTwo(env, s1, inner, relative);
    var group := [inner, relative];
    assert Run(env, s1, group) == Outcome(s3, true);
    PrefixResets(env, State(map[], ""), prefix, group);
    RunOne(env, State(map[], ""), Prefix(prefix, group));
  }
}
