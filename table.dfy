/** The route table of `RouteCollector` as a value: for each method, the routes of
    each of its chunks in order. `Place` is what `addRoute` does for one method and
    `Register` is the `foreach` over all methods it was given; both are what the
    collector's methods are proved against. */
module RouteTable {
  import opened Chunks

  /** The content of `$routes`: method => list of chunks => routes in the chunk. */
  type Table = map<Method, seq<seq<Route>>>

  function Last<T>(s: seq<T>): T
    requires |s| > 0
  {
    s[|s| - 1]
  }

  /** Every method present in the table has at least one chunk (`end()` is safe). */
  predicate Lists(t: Table) {
    forall m :: m in t ==> |t[m]| > 0
  }

  /** The chunk list `addRoute` works on for method `m`: the existing one, or the
      one-chunk list it creates lazily. */
  function ListFor(t: Table, m: Method): (cs: seq<seq<Route>>)
    requires Lists(t)
    ensures |cs| > 0
    ensures m !in t ==> cs == [[]]
  {
    if m in t then t[m] else [[]]
  }

  /** `after` is `before` with possibly more chunks at the end, where every chunk but
      the last of `before` is untouched and its last chunk only had routes appended. */
  predicate Extends(before: seq<seq<Route>>, after: seq<seq<Route>>)
    requires |before| > 0
  {
    var n := |before|;
    n <= |after| && before[..n - 1] == after[..n - 1] && before[n - 1] <= after[n - 1]
  }

  lemma ExtendsTransitive(a: seq<seq<Route>>, b: seq<seq<Route>>, c: seq<seq<Route>>)
    requires |a| > 0 && |b| > 0 && Extends(a, b) && Extends(b, c)
    ensures Extends(a, c)
  {
    var n := |a|;
    if n < |b| {
      assert a[n - 1] <= b[n - 1];
      assert b[..|b| - 1][n - 1] == c[..|b| - 1][n - 1];
    }
    assert a[..n - 1] == b[..|b| - 1][..n - 1];
  }

  /** The outcome of offering a route to one method's chunk list. */
  datatype Placement = Placement(chunks: seq<seq<Route>>, accepted: bool)

  /** The body of `addRoute`'s loop for one method: offer the route to the last
      chunk; if it refuses, append a fresh chunk and offer it there; if that one
      refuses too, the fresh (empty) chunk stays appended and the call fails. */
  function Place(rule: ChunkRule, cs: seq<seq<Route>>, r: Route): (p: Placement)
    requires |cs| > 0
    ensures |cs| <= |p.chunks| <= |cs| + 1
  {
    var last := Last(cs);
    if Fits(rule, last, r) then Placement(cs[..|cs| - 1] + [last + [r]], true)
    else if Fits(rule, [], r) then Placement(cs + [[r]], true)
    else Placement(cs + [[]], false)
  }

  /** `end($list)->addRoute($route)`: the last chunk takes the route when it fits,
      and nothing changes otherwise. */
  function Offer(rule: ChunkRule, cs: seq<seq<Route>>, r: Route): (p: Placement)
    requires |cs| > 0
    ensures |p.chunks| == |cs| && p.accepted == Fits(rule, Last(cs), r)
  {
    if Fits(rule, Last(cs), r) then Placement(cs[..|cs| - 1] + [Last(cs) + [r]], true)
    else Placement(cs, false)
  }

  /** `Place` is an offer to the last chunk and, when that one refuses, an offer to
      a fresh chunk appended to the list. */
  lemma PlaceByOffers(rule: ChunkRule, cs: seq<seq<Route>>, r: Route)
    requires |cs| > 0
    ensures var o := Offer(rule, cs, r);
            Place(rule, cs, r) == if o.accepted then o else Offer(rule, cs + [[]], r)
  {
    var cs' := cs + [[]];
    assert Last(cs') == [] && cs'[..|cs'| - 1] == cs && [] + [r] == [r];
  }

  /** What one offer does to a method's chunk list: only the last chunk is offered
      the route, a chunk is appended exactly when that chunk refused it, and the
      route is placed exactly when a fresh chunk would take it; it then ends the
      list, with nothing else added. */
  lemma PlaceSpec(rule: ChunkRule, cs: seq<seq<Route>>, r: Route)
    requires |cs| > 0
    ensures var p := Place(rule, cs, r);
            && Extends(cs, p.chunks)
            && (|p.chunks| == |cs| + 1 <==> !Fits(rule, Last(cs), r))
            && (p.accepted <==> Fits(rule, [], r))
            && (p.accepted ==> |Last(p.chunks)| > 0 && Last(Last(p.chunks)) == r)
            && (p.accepted ==> Dropped(p.chunks) == cs + if |p.chunks| == |cs| then [] else [[]])
            && (!p.accepted ==> p.chunks == cs + [[]])
  {
    var p := Place(rule, cs, r);
    var n := |cs|;
    assert p.chunks[..n - 1] == cs[..n - 1];
    if p.accepted && |p.chunks| == n {
      assert Dropped(p.chunks) == cs;
    }
  }

  /** A non-empty chunk list with the last route of its last chunk taken away. */
  function Dropped(cs: seq<seq<Route>>): seq<seq<Route>>
    requires |cs| > 0 && |Last(cs)| > 0
  {
    cs[..|cs| - 1] + [Last(cs)[..|Last(cs)| - 1]]
  }

  /** The result of `addRoute` on the table, and whether it returned normally. */
  datatype Registration = Registration(table: Table, ok: bool)

  /** `addRoute($methods, $route, ...)` with `pattern` the parsed route: place the
      route `Route(m, pattern)` for each method in turn, stopping at the first one
      whose fresh chunk refuses it (the exception leaves earlier methods registered
      and that method's empty chunk appended). */
  function Register(rule: ChunkRule, t: Table, methods: seq<Method>, pattern: Pattern): (g: Registration)
    requires Lists(t)
    ensures Lists(g.table)
    decreases |methods|
  {
    if methods == [] then Registration(t, true)
    else
      var m := methods[0];
      var p := Place(rule, ListFor(t, m), Route(m, pattern));
      var t' := t[m := p.chunks];
      if !p.accepted then Registration(t', false)
      else Register(rule, t', methods[1..], pattern)
  }

  // ---------------------------------------------------------------------------
  // Properties of one addRoute call

  /** The first method is placed first; the rest follow only if it was placed. */
  lemma RegisterFirst(rule: ChunkRule, t: Table, methods: seq<Method>, pattern: Pattern)
    requires Lists(t) && methods != []
    ensures var m := methods[0];
            var p := Place(rule, ListFor(t, m), Route(m, pattern));
            Register(rule, t, methods, pattern)
            == if p.accepted then Register(rule, t[m := p.chunks], methods[1..], pattern)
               else Registration(t[m := p.chunks], false)
  {
  }

  /** Registering for `a + b` is registering for `a` and then, if that returned
      normally, for `b` on the resulting table. */
  lemma {:induction false} RegisterAppend(rule: ChunkRule, t: Table, a: seq<Method>, b: seq<Method>, pattern: Pattern)
    requires Lists(t)
    ensures var ga := Register(rule, t, a, pattern);
            Register(rule, t, a + b, pattern) == if ga.ok then Register(rule, ga.table, b, pattern) else ga
    decreases |a|
  {
    if a != [] {
      var m := a[0];
      var p := Place(rule, ListFor(t, m), Route(m, pattern));
      assert (a + b)[0] == m && (a + b)[1..] == a[1..] + b;
      if p.accepted {
        RegisterAppend(rule, t[m := p.chunks], a[1..], b, pattern);
      }
    } else {
      assert a + b == b;
    }
  }

  /** Methods not named in the call keep exactly the entry they had (or stay absent). */
  lemma {:induction false} RegisterFrame(rule: ChunkRule, t: Table, methods: seq<Method>, pattern: Pattern, m: Method)
    requires Lists(t) && m !in methods
    ensures var g := Register(rule, t, methods, pattern);
            (m in g.table <==> m in t) && (m in t ==> g.table[m] == t[m])
    decreases |methods|
  {
    if methods != [] {
      var n := methods[0];
      var p := Place(rule, ListFor(t, n), Route(n, pattern));
      if p.accepted {
        assert m !in methods[1..];
        RegisterFrame(rule, t[n := p.chunks], methods[1..], pattern, m);
      }
    }
  }

  /** The call returns normally exactly when a fresh chunk admits the route for
      every method named. */
  lemma {:induction false} RegisterOkIff(rule: ChunkRule, t: Table, methods: seq<Method>, pattern: Pattern)
    requires Lists(t)
    ensures Register(rule, t, methods, pattern).ok
            <==> forall k :: 0 <= k < |methods| ==> Fits(rule, [], Route(methods[k], pattern))
    decreases |methods|
  {
    if methods != [] {
      var m := methods[0];
      var p := Place(rule, ListFor(t, m), Route(m, pattern));
      if p.accepted {
        RegisterOkIff(rule, t[m := p.chunks], methods[1..], pattern);
        assert forall k :: 1 <= k < |methods| ==> methods[k] == methods[1..][k - 1];
      }
    }
  }

  /** After a normal return every method named has a chunk list whose last chunk
      ends with the new route. */
  lemma {:induction false} RegisterPlacesRoute(rule: ChunkRule, t: Table, methods: seq<Method>, pattern: Pattern)
    requires Lists(t)
    ensures var g := Register(rule, t, methods, pattern);
            g.ok ==> forall m :: m in methods ==>
              m in g.table && |Last(g.table[m])| > 0 && Last(Last(g.table[m])) == Route(m, pattern)
    decreases |methods|
  {
    var g := Register(rule, t, methods, pattern);
    if methods != [] && g.ok {
      var n := methods[0];
      var p := Place(rule, ListFor(t, n), Route(n, pattern));
      var t' := t[n := p.chunks];
      RegisterPlacesRoute(rule, t', methods[1..], pattern);
      forall m | m in methods
        ensures m in g.table && |Last(g.table[m])| > 0 && Last(Last(g.table[m])) == Route(m, pattern)
      {
        if m !in methods[1..] {
          assert m == n;
          RegisterFrame(rule, t', methods[1..], pattern, m);
        }
      }
    }
  }

  /** Each method's list is the old list (or the fresh one-chunk list) extended: the
      chunks before its last are never changed again, the last one only gets routes
      appended, and the list grew by at most one chunk per time the method was named. */
  lemma {:induction false} RegisterGrowth(rule: ChunkRule, t: Table, methods: seq<Method>, pattern: Pattern, m: Method)
    requires Lists(t)
    ensures var g := Register(rule, t, methods, pattern);
            m in g.table ==>
              && (m in t || m in methods)
              && Extends(ListFor(t, m), g.table[m])
              && |g.table[m]| <= |ListFor(t, m)| + multiset(methods)[m]
    decreases |methods|
  {
    var g := Register(rule, t, methods, pattern);
    if methods != [] && m in g.table {
      var n := methods[0];
      var cs := ListFor(t, n);
      var p := Place(rule, cs, Route(n, pattern));
      assert Extends(cs, p.chunks) by { PlaceSpec(rule, cs, Route(n, pattern)); }
      var t' := t[n := p.chunks];
      assert methods == [n] + methods[1..];
      var rest := multiset(methods[1..])[m];
      assert multiset(methods)[m] == (if m == n then 1 else 0) + rest;
      if m != n {
        assert ListFor(t', m) == ListFor(t, m);
      }
      if !p.accepted {
        if m != n {
          ExtendsReflexive(ListFor(t, m));
        }
      } else {
        RegisterGrowth(rule, t', methods[1..], pattern, m);
        if m == n {
          ExtendsTransitive(ListFor(t, m), ListFor(t', m), g.table[m]);
        }
      }
    }
  }

  lemma ExtendsReflexive(a: seq<seq<Route>>)
    requires |a| > 0
    ensures Extends(a, a)
  {
  }

  /** The error case: when the route is admitted for the first `k` methods but not
      for `methods[k]`, the call fails; the earlier methods stay registered, the
      failing method is left with an empty chunk appended, and every method not
      yet reached is untouched. */
  lemma RegisterFailure(rule: ChunkRule, t: Table, methods: seq<Method>, pattern: Pattern, k: nat)
    requires Lists(t) && k < |methods|
    requires forall j :: 0 <= j < k ==> Fits(rule, [], Route(methods[j], pattern))
    requires !Fits(rule, [], Route(methods[k], pattern))
    ensures var g := Register(rule, t, methods, pattern);
            var bad := methods[k];
            && !g.ok
            && bad in g.table && g.table[bad] == ListFor(t, bad) + [[]]
            && (forall j :: 0 <= j < k ==>
                  methods[j] in g.table && |Last(g.table[methods[j]])| > 0 &&
                  Last(Last(g.table[methods[j]])) == Route(methods[j], pattern))
            && (forall m :: m !in methods[..k + 1] ==>
                  (m in g.table <==> m in t) && (m in t ==> g.table[m] == t[m]))
  {
    var before, rest := methods[..k], methods[k..];
    assert methods == before + rest;
    RegisterAppend(rule, t, before, rest, pattern);
    RegisterOkIff(rule, t, before, pattern);
    var gb := Register(rule, t, before, pattern);
    assert gb.ok;
    RegisterPlacesRoute(rule, t, before, pattern);
    var bad := methods[k];
    // the failing method has not been named before, or it would have failed there
    assert bad !in before;
    RegisterFrame(rule, t, before, pattern, bad);
    assert rest[0] == bad;
    var g := Register(rule, t, methods, pattern);
    assert g == Registration(gb.table[bad := ListFor(gb.table, bad) + [[]]], false);
    forall m | m !in methods[..k + 1]
      ensures (m in g.table <==> m in t) && (m in t ==> g.table[m] == t[m])
    {
      assert methods[..k + 1] == before + [bad];
      RegisterFrame(rule, t, before, pattern, m);
    }
  }

  // ---------------------------------------------------------------------------
  // Invariants of the table kept by every addRoute call

  /** The chunks of method `m`'s list hold at most `capacity` routes each, and
      every route in them was built for `m` and is admitted by the rule. */
  predicate ChunksFor(rule: ChunkRule, m: Method, cs: seq<seq<Route>>) {
    forall i :: 0 <= i < |cs| ==>
      |cs[i]| <= rule.capacity && forall r :: r in cs[i] ==> r.verb == m && rule.admits(r)
  }

  /** Every list is non-empty and holds only chunks fit for its method. */
  predicate WellFormed(rule: ChunkRule, t: Table) {
    Lists(t) && forall m :: m in t ==> ChunksFor(rule, m, t[m])
  }

  /** Appending a route that the last chunk accepts keeps the list fit. */
  lemma ChunksForGrow(rule: ChunkRule, m: Method, cs: seq<seq<Route>>, r: Route)
    requires |cs| > 0 && ChunksFor(rule, m, cs) && r.verb == m && Fits(rule, Last(cs), r)
    ensures ChunksFor(rule, m, cs[..|cs| - 1] + [Last(cs) + [r]])
  {
    var n := |cs|;
    var cs' := cs[..n - 1] + [Last(cs) + [r]];
    forall i | 0 <= i < n - 1 ensures cs'[i] == cs[i] {
      assert cs'[i] == cs[..n - 1][i];
    }
  }

  /** Appending an empty chunk, or a chunk holding one admitted route, keeps the list fit. */
  lemma ChunksForAppend(rule: ChunkRule, m: Method, cs: seq<seq<Route>>, c: seq<Route>)
    requires ChunksFor(rule, m, cs)
    requires c == [] || (|c| == 1 && c[0].verb == m && Fits(rule, [], c[0]))
    ensures ChunksFor(rule, m, cs + [c])
  {
    var cs' := cs + [c];
    forall i | 0 <= i < |cs| ensures cs'[i] == cs[i] {
    }
  }

  lemma PlaceKeepsWellFormed(rule: ChunkRule, cs: seq<seq<Route>>, r: Route)
    requires |cs| > 0 && ChunksFor(rule, r.verb, cs)
    ensures ChunksFor(rule, r.verb, Place(rule, cs, r).chunks)
  {
    if Fits(rule, Last(cs), r) {
      ChunksForGrow(rule, r.verb, cs, r);
    } else if Fits(rule, [], r) {
      ChunksForAppend(rule, r.verb, cs, [r]);
    } else {
      ChunksForAppend(rule, r.verb, cs, []);
    }
  }

  lemma {:induction false} RegisterKeepsWellFormed(rule: ChunkRule, t: Table, methods: seq<Method>, pattern: Pattern)
    requires WellFormed(rule, t)
    ensures WellFormed(rule, Register(rule, t, methods, pattern).table)
    decreases |methods|
  {
    if methods != [] {
      var m := methods[0];
      var cs := ListFor(t, m);
      var p := Place(rule, cs, Route(m, pattern));
      PlaceKeepsWellFormed(rule, cs, Route(m, pattern));
      var t' := t[m := p.chunks];
      assert WellFormed(rule, t');
      if p.accepted {
        RegisterKeepsWellFormed(rule, t', methods[1..], pattern);
      }
    }
  }

  /** The chunk discipline of a list built without errors: every chunk but the
      last is full, and the last one is not empty. */
  predicate PackedList(rule: ChunkRule, cs: seq<seq<Route>>) {
    && |cs| > 0 && |Last(cs)| > 0
    && forall i :: 0 <= i < |cs| - 1 ==> |cs[i]| == rule.capacity
  }

  /** Every list of the table is packed. */
  predicate Packed(rule: ChunkRule, t: Table) {
    Lists(t) && forall m :: m in t ==> PackedList(rule, t[m])
  }

  /** Placing a route that is placed at all keeps a fit list packed. */
  lemma PlaceKeepsPacked(rule: ChunkRule, cs: seq<seq<Route>>, r: Route)
    requires ChunksFor(rule, r.verb, cs) && Fits(rule, [], r)
    requires cs == [[]] || PackedList(rule, cs)
    ensures PackedList(rule, Place(rule, cs, r).chunks)
  {
    var p := Place(rule, cs, r);
    var n := |cs|;
    forall i | 0 <= i < |p.chunks| - 1 ensures |p.chunks[i]| == rule.capacity {
      if i < n - 1 {
        assert p.chunks[i] == p.chunks[..n - 1][i] == cs[i];
      }
    }
  }

  lemma {:induction false} RegisterKeepsPacked(rule: ChunkRule, t: Table, methods: seq<Method>, pattern: Pattern)
    requires Packed(rule, t) && WellFormed(rule, t)
    requires Register(rule, t, methods, pattern).ok
    ensures Packed(rule, Register(rule, t, methods, pattern).table)
    decreases |methods|
  {
    if methods != [] {
      var m := methods[0];
      var cs := ListFor(t, m);
      var r := Route(m, pattern);
      var p := Place(rule, cs, r);
      PlaceKeepsPacked(rule, cs, r);
      PlaceKeepsWellFormed(rule, cs, r);
      var t' := t[m := p.chunks];
      assert Packed(rule, t') && WellFormed(rule, t');
      RegisterKeepsPacked(rule, t', methods[1..], pattern);
    }
  }
}
