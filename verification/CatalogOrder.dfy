/** What the order of fetching, which the hash maps leave open, can change in the merged catalogs. */
module CatalogOrder {
  import opened Json
  import Graphs
  import opened Catalog

  // ----- Runs of the worklist -----

  lemma {:induction false} SeenStays(universe: set<string>, order: Order, stack: seq<string>, seen: seq<string>)
    requires Inside(universe, order, stack)
    ensures seen <= Run(universe, order, stack, seen)
    ensures forall uri | uri in seen :: uri in Run(universe, order, stack, seen)
    decreases Unseen(universe, seen), |stack|
  {
    hide Inside, Pushed;
    if stack != [] {
      var rest, uri := stack[..|stack| - 1], stack[|stack| - 1];
      assert stack == rest + [uri];
      NextStep(universe, order, rest, uri, seen);
      if uri in seen {
        SeenStays(universe, order, rest, seen);
      } else {
        InUniverse(universe, order, rest, uri);
        OneLessUnseen(universe, seen, uri);
        SeenStays(universe, order, rest + Pushed(order, uri), seen + [uri]);
      }
    }
  }

  lemma InUniverse(universe: set<string>, order: Order, rest: seq<string>, uri: string)
    requires Inside(universe, order, rest + [uri])
    ensures uri in universe && Inside(universe, order, [uri])
  {
    assert uri in rest + [uri];
  }

  lemma BothInside(universe: set<string>, order: Order, below: seq<string>, above: seq<string>)
    requires Inside(universe, order, below + above)
    ensures Inside(universe, order, below) && Inside(universe, order, above)
  {
    assert forall uri | uri in below :: uri in below + above;
    assert forall uri | uri in above :: uri in below + above;
  }

  /** What lies below on the stack waits until what lies above is done. */
  lemma {:induction false} AboveFirst(
    universe: set<string>, order: Order, below: seq<string>, above: seq<string>, seen: seq<string>)
    requires Inside(universe, order, below + above)
    ensures Inside(universe, order, below) && Inside(universe, order, above)
    ensures Run(universe, order, below + above, seen) ==
            Run(universe, order, below, Run(universe, order, above, seen))
    decreases Unseen(universe, seen), |above|
  {
    hide Inside, Pushed;
    BothInside(universe, order, below, above);
    if above == [] {
      assert below + above == below;
    } else {
      var rest, uri := above[..|above| - 1], above[|above| - 1];
      assert above == rest + [uri];
      assert below + above == (below + rest) + [uri];
      NextStep(universe, order, rest, uri, seen);
      NextStep(universe, order, below + rest, uri, seen);
      if uri in seen {
        AboveFirst(universe, order, below, rest, seen);
      } else {
        InUniverse(universe, order, rest, uri);
        OneLessUnseen(universe, seen, uri);
        assert (below + rest) + Pushed(order, uri) == below + (rest + Pushed(order, uri));
        AboveFirst(universe, order, below, rest + Pushed(order, uri), seen + [uri]);
      }
    }
  }

  // ----- Reaching a catalog around others -----

  ghost function From(around: seq<string>, start: string): string -> bool {
    uri => uri == start && start !in around
  }

  ghost function Around(around: seq<string>): (string, string) -> bool {
    (uri, next) => Declares(FETCH(uri), next) && next !in around
  }

  /** The imports lead from one catalog to the other without passing through any of the given ones. */
  ghost predicate Leads(around: seq<string>, start: string, uri: string) {
    Graphs.Reachable(From(around, start), Around(around), uri)
  }

  lemma LeadsToItself(around: seq<string>, start: string)
    ensures Leads(around, start, start) <==> start !in around
  {
    if start !in around {
      Graphs.RootIsReached(From(around, start), Around(around), start);
    } else if Leads(around, start, start) {
      LeadsOutside(around, start, start);
    }
  }

  lemma LeadsOutside(around: seq<string>, start: string, uri: string)
    requires Leads(around, start, uri)
    ensures start !in around && uri !in around
  {
    hide Declares;
    var path :| Graphs.IsPath(From(around, start), Around(around), path) && path[|path| - 1] == uri;
    if |path| > 1 {
      assert Around(around)(path[|path| - 2], path[|path| - 2 + 1]);
    }
  }

  lemma LeadsOn(around: seq<string>, start: string, uri: string, next: string)
    requires Leads(around, start, uri) && Declares(FETCH(uri), next) && next !in around
    ensures Leads(around, start, next)
  {
    hide Declares;
    Graphs.StepIsReached(From(around, start), Around(around), uri, next);
  }

  lemma LeadsThrough(around: seq<string>, start: string, middle: string, uri: string)
    requires Leads(around, start, middle) && Leads(around, middle, uri)
    ensures Leads(around, start, uri)
  {
    hide Declares;
    var path :| Graphs.IsPath(From(around, middle), Around(around), path) && path[|path| - 1] == uri;
    Graphs.Onward(From(around, start), From(around, middle), Around(around), path, |path| - 1);
  }

  /** A set that holds the start and is closed but for the given catalogs holds everything the start leads to. */
  lemma LeadsInside(around: seq<string>, start: string, uri: string, all: set<string>)
    requires Leads(around, start, uri) && start in all
    requires forall m, n | m in all && Declares(FETCH(m), n) && n !in around :: n in all
    ensures uri in all
  {
    hide Declares;
    Graphs.ReachableIsSeen(From(around, start), Around(around), all, uri);
  }

  // ----- What a part of a run fetches -----

  lemma PushedIsDeclared(root: Collection, universe: set<string>, order: Order, uri: string)
    requires Possible(root, universe, order) && uri in universe
    ensures forall next :: next in Pushed(order, uri) <==> Declares(FETCH(uri), next)
  {
    EndpointsAreDeclared(FETCH(uri), order.nested[uri]);
  }

  /** Only what the stack leads to, around anything that has been seen. */
  lemma {:induction false} FetchedIsLedTo(root: Collection, universe: set<string>, order: Order,
                                          stack: seq<string>, seen: seq<string>, around: seq<string>, uri: string)
    requires Possible(root, universe, order) && Inside(universe, order, stack)
    requires forall a | a in around :: a in seen
    requires uri in Run(universe, order, stack, seen) && uri !in seen
    ensures exists start :: start in stack && Leads(around, start, uri)
    decreases Unseen(universe, seen), |stack|
  {
    hide Inside, Pushed, Leads, Possible, Declares;
    var rest, top := stack[..|stack| - 1], stack[|stack| - 1];
    assert stack == rest + [top] && top in stack;
    NextStep(universe, order, rest, top, seen);
    if top in seen {
      FetchedIsLedTo(root, universe, order, rest, seen, around, uri);
    } else {
      InUniverse(universe, order, rest, top);
      OneLessUnseen(universe, seen, top);
      LeadsToItself(around, top);
      if uri != top {
        assert forall a | a in seen :: a in seen + [top];
        FetchedIsLedTo(root, universe, order, rest + Pushed(order, top), seen + [top], around, uri);
        var start :| start in rest + Pushed(order, top) && Leads(around, start, uri);
        if start !in rest {
          PushedIsDeclared(root, universe, order, top);
          LeadsOutside(around, start, uri);
          LeadsOn(around, top, top, start);
          LeadsThrough(around, top, start, uri);
        }
      }
    }
  }

  /** Everything on the stack, and everything that what it fetches declares. */
  lemma {:induction false} StackIsFetched(universe: set<string>, order: Order, stack: seq<string>, seen: seq<string>)
    requires Inside(universe, order, stack)
    ensures var all := Run(universe, order, stack, seen);
            && (forall uri | uri in stack :: uri in all)
            && (forall uri | uri in all && uri !in seen :: forall next | next in Pushed(order, uri) :: next in all)
    decreases Unseen(universe, seen), |stack|
  {
    hide Inside, Pushed;
    if stack != [] {
      var rest, top := stack[..|stack| - 1], stack[|stack| - 1];
      assert stack == rest + [top];
      NextStep(universe, order, rest, top, seen);
      SeenStays(universe, order, stack, seen);
      if top in seen {
        StackIsFetched(universe, order, rest, seen);
      } else {
        InUniverse(universe, order, rest, top);
        OneLessUnseen(universe, seen, top);
        SeenStays(universe, order, rest + Pushed(order, top), seen + [top]);
        StackIsFetched(universe, order, rest + Pushed(order, top), seen + [top]);
      }
    }
  }

  lemma {:induction false} FetchedInside(universe: set<string>, order: Order, stack: seq<string>, seen: seq<string>)
    requires Inside(universe, order, stack) && forall uri | uri in seen :: uri in universe
    ensures forall uri | uri in Run(universe, order, stack, seen) :: uri in universe
    decreases Unseen(universe, seen), |stack|
  {
    hide Inside, Pushed;
    if stack != [] {
      var rest, top := stack[..|stack| - 1], stack[|stack| - 1];
      assert stack == rest + [top];
      NextStep(universe, order, rest, top, seen);
      if top in seen {
        FetchedInside(universe, order, rest, seen);
      } else {
        InUniverse(universe, order, rest, top);
        OneLessUnseen(universe, seen, top);
        FetchedInside(universe, order, rest + Pushed(order, top), seen + [top]);
      }
    }
  }

  lemma {:induction false} FetchedOnce(universe: set<string>, order: Order, stack: seq<string>, seen: seq<string>)
    requires Inside(universe, order, stack) && Distinct(seen)
    ensures Distinct(Run(universe, order, stack, seen))
    decreases Unseen(universe, seen), |stack|
  {
    hide Inside, Pushed;
    if stack != [] {
      var rest, top := stack[..|stack| - 1], stack[|stack| - 1];
      assert stack == rest + [top];
      NextStep(universe, order, rest, top, seen);
      if top in seen {
        FetchedOnce(universe, order, rest, seen);
      } else {
        InUniverse(universe, order, rest, top);
        OneLessUnseen(universe, seen, top);
        FetchedOnce(universe, order, rest + Pushed(order, top), seen + [top]);
      }
    }
  }

  // ----- Routes -----

  /** Where a route has got to. */
  function At(root: Collection, route: seq<string>): Collection {
    if route == [] then root else FETCH(route[|route| - 1])
  }

  /** Every catalog of the route is declared by the one before it, the first by the root; none occurs twice. */
  ghost predicate Route(root: Collection, route: seq<string>) {
    Distinct(route) && forall i | 0 <= i < |route| :: Declares(At(root, route[..i]), route[i])
  }

  /**
   * Some catalog on the route imports one that leads to this one, but not to the target,
   * around what comes before on the route.
   */
  ghost predicate Aside(root: Collection, route: seq<string>, target: string, uri: string) {
    exists i: nat, start ::
      i <= |route| && Declares(At(root, route[..i]), start)
      && Leads(route[..i], start, uri) && !Leads(route[..i], start, target)
  }

  lemma AsideStays(root: Collection, route: seq<string>, more: seq<string>, target: string, uri: string)
    requires Aside(root, route, target, uri)
    ensures Aside(root, route + more, target, uri)
  {
    hide At, Leads, Declares;
    var i: nat, start :| i <= |route| && Declares(At(root, route[..i]), start)
      && Leads(route[..i], start, uri) && !Leads(route[..i], start, target);
    assert (route + more)[..i] == route[..i];
  }

  /** Whatever was seen off the route is done: all it declares was seen too. */
  ghost predicate Finished(order: Order, seen: seq<string>, route: seq<string>) {
    forall uri | uri in seen && uri !in route :: forall next | next in Pushed(order, uri) :: next in seen
  }

  /** The part of a run that is between two settled points on a route. */
  ghost predicate Settled(
    root: Collection, universe: set<string>, order: Order, stack: seq<string>, seen: seq<string>, route: seq<string>)
  {
    && Possible(root, universe, order) && Inside(universe, order, stack)
    && (forall uri | uri in seen :: uri in universe) && (forall uri | uri in route :: uri in seen)
    && Finished(order, seen, route)
  }

  /** What runs from a settled point leaves everything off the route done. */
  lemma StaysFinished(
    root: Collection, universe: set<string>, order: Order, stack: seq<string>, seen: seq<string>, route: seq<string>)
    requires Settled(root, universe, order, stack, seen, route)
    ensures var all := Run(universe, order, stack, seen);
            Settled(root, universe, order, [], all, route)
  {
    hide Possible, Pushed;
    StackIsFetched(universe, order, stack, seen);
    SeenStays(universe, order, stack, seen);
    FetchedInside(universe, order, stack, seen);
  }

  /** Of what starts at a catalog, around the route, everything has been seen once the catalog has. */
  lemma AllLedToIsSeen(root: Collection, universe: set<string>, order: Order, seen: seq<string>, route: seq<string>,
                       start: string, uri: string)
    requires Settled(root, universe, order, [], seen, route) && start in seen && Leads(route, start, uri)
    ensures uri in seen
  {
    hide Leads, Declares, Possible, Pushed;
    var all := set x | x in seen && x !in route;
    LeadsOutside(route, start, uri);
    forall m, n | m in all && Declares(FETCH(m), n) && n !in route ensures n in all {
      PushedIsDeclared(root, universe, order, m);
    }
    LeadsInside(route, start, uri, all);
  }

  lemma RouteGrows(root: Collection, route: seq<string>, uri: string)
    requires Route(root, route) && Declares(At(root, route), uri) && uri !in route
    ensures Route(root, route + [uri]) && At(root, route + [uri]) == FETCH(uri)
  {
    hide Declares;
    var longer := route + [uri];
    forall i | 0 <= i < |longer| ensures Declares(At(root, longer[..i]), longer[i]) {
      if i < |route| {
        assert longer[..i] == route[..i];
      } else {
        assert longer[..i] == route;
      }
    }
  }

  lemma SettledGoesOn(
    root: Collection, universe: set<string>, order: Order, rest: seq<string>, top: string, seen: seq<string>,
    route: seq<string>)
    requires Settled(root, universe, order, rest + [top], seen, route) && top !in seen
    ensures Settled(root, universe, order, [top], seen, route)
    ensures Settled(root, universe, order, Pushed(order, top), seen + [top], route + [top])
    ensures Run(universe, order, [top], seen) == Run(universe, order, Pushed(order, top), seen + [top])
    ensures Settled(root, universe, order, rest, Run(universe, order, [top], seen), route)
    ensures top in universe
  {
    hide Pushed, Possible, Inside;
    InUniverse(universe, order, rest, top);
    BothInside(universe, order, rest, [top]);
    assert [] + [top] == [top] && [] + Pushed(order, top) == Pushed(order, top);
    NextStep(universe, order, [], top, seen);
    StaysFinished(root, universe, order, [top], seen, route);
  }

  /** What a branch that does not come to the target fetches lies aside of the route. */
  lemma BranchIsAside(
    root: Collection, universe: set<string>, order: Order, top: string, seen: seq<string>, route: seq<string>,
    target: string, uri: string)
    requires Settled(root, universe, order, [top], seen, route)
    requires Declares(At(root, route), top) && top !in seen && target !in Run(universe, order, [top], seen)
    requires uri in Run(universe, order, [top], seen) && uri !in seen
    ensures Aside(root, route, target, uri)
  {
    hide Possible, Inside, Pushed, Leads, Finished, Declares, At;
    var now := Run(universe, order, [top], seen);
    FetchedIsLedTo(root, universe, order, [top], seen, route, uri);
    assert Leads(route, top, uri);
    StaysFinished(root, universe, order, [top], seen, route);
    StackIsFetched(universe, order, [top], seen);
    if Leads(route, top, target) {
      AllLedToIsSeen(root, universe, order, now, route, top, target);
    }
    assert route[..|route|] == route;
  }

  /** `whole` is a route to the target, and all that was fetched before the target, at j, lies on it or aside of it. */
  ghost predicate Explains(root: Collection, fetched: seq<string>, whole: seq<string>, target: string, j: nat) {
    && j < |fetched| && fetched[j] == target && Route(root, whole + [target])
    && forall uri | uri in fetched[..j] :: uri in whole || Aside(root, whole, target, uri)
  }

  lemma ExplainsLonger(
    root: Collection, fetched: seq<string>, all: seq<string>, whole: seq<string>, target: string, j: nat)
    requires Explains(root, fetched, whole, target, j) && fetched <= all
    ensures Explains(root, all, whole, target, j)
  {
    hide Route, Aside;
    assert all[..j] == fetched[..j];
  }

  /** Every run that comes to a target has taken a route to it. */
  lemma {:induction false} RouteOfRun(
    root: Collection, universe: set<string>, order: Order, stack: seq<string>, seen: seq<string>, route: seq<string>,
    target: string) returns (whole: seq<string>, j: nat)
    requires Settled(root, universe, order, stack, seen, route) && Route(root, route)
    requires forall uri | uri in stack :: Declares(At(root, route), uri)
    requires target !in seen && target in Run(universe, order, stack, seen)
    requires forall uri | uri in seen :: uri in route || Aside(root, route, target, uri)
    ensures Explains(root, Run(universe, order, stack, seen), whole, target, j)
    decreases Unseen(universe, seen), |stack|
  {
    hide Possible, Inside, Pushed, Declares, Finished, Route, Aside, At;
    var rest, top := stack[..|stack| - 1], stack[|stack| - 1];
    assert stack == rest + [top] && top in stack;
    NextStep(universe, order, rest, top, seen);
    if top in seen {
      whole, j := RouteOfRun(root, universe, order, rest, seen, route, target);
    } else {
      SettledGoesOn(root, universe, order, rest, top, seen, route);
      AboveFirst(universe, order, rest, [top], seen);
      RouteGrows(root, route, top);
      OneLessUnseen(universe, seen, top);
      var now := Run(universe, order, [top], seen);
      SeenStays(universe, order, Pushed(order, top), seen + [top]);
      SeenStays(universe, order, rest, now);
      if top == target {
        whole, j := route, |seen|;
        assert now[..j] == seen;
        assert Explains(root, now, whole, target, j);
        ExplainsLonger(root, now, Run(universe, order, stack, seen), whole, target, j);
      } else if target in now {
        forall uri | uri in seen && uri !in route ensures Aside(root, route + [top], target, uri) {
          AsideStays(root, route, [top], target, uri);
        }
        PushedIsDeclared(root, universe, order, top);
        whole, j := RouteOfRun(root, universe, order, Pushed(order, top), seen + [top], route + [top], target);
        ExplainsLonger(root, now, Run(universe, order, stack, seen), whole, target, j);
      } else {
        forall uri | uri in now && uri !in seen ensures Aside(root, route, target, uri) {
          BranchIsAside(root, universe, order, top, seen, route, target, uri);
        }
        LessUnseen(universe, seen, top, now);
        whole, j := RouteOfRun(root, universe, order, rest, now, route, target);
      }
    }
  }

  lemma LessUnseen(universe: set<string>, seen: seq<string>, uri: string, more: seq<string>)
    requires uri in universe && uri !in seen && seen + [uri] <= more
    ensures Unseen(universe, more) < Unseen(universe, seen)
  {
    assert uri in seen + [uri];
    assert forall u | u in seen :: u in seen + [uri];
    assert forall u | u in seen + [uri] :: u in more;
    assert uri in Unseen(universe, seen);
  }

  // ----- An order that takes a given route -----

  lemma {:induction false} EndpointsAdd(c: Collection, a: seq<string>, b: seq<string>)
    ensures EndpointsOf(c, a + b) == EndpointsOf(c, a) + EndpointsOf(c, b)
    decreases |b|
  {
    if b == [] {
      assert a + b == a;
    } else {
      var init, last := b[..|b| - 1], b[|b| - 1];
      assert (a + b)[..|a + b| - 1] == a + init;
      EndpointsAdd(c, a, init);
    }
  }

  /** The imports that do not lead to the target, around what comes before on the route. */
  ghost function Clear(c: Collection, before: seq<string>, target: string): set<string> {
    set n | n in c.catalogs && !Leads(before, c.catalogs[n], target)
  }

  function Onto(c: Collection, uri: string): set<string> {
    set n | n in c.catalogs && c.catalogs[n] == uri
  }

  /** The clear imports are fetched first, then the next catalog of the route. */
  ghost function Arranged(c: Collection, before: seq<string>, next: string, target: string): seq<string> {
    var clear, onto := Clear(c, before, target), Onto(c, next);
    SortedKeys(c.catalogs.Keys - clear - onto) + SortedKeys(onto - clear) + SortedKeys(clear)
  }

  lemma SortedKeysList(names: set<string>)
    ensures Lists(SortedKeys(names), names)
  {
    SortedKeysEnumerate(names);
    var s := SortedKeys(names);
    forall i, j | 0 <= i < j < |s| ensures s[i] != s[j] {
      StringLessTotal(s[i], s[j]);
      StringLessTotal(s[i], s[i]);
    }
  }

  lemma ListsAdd(a: seq<string>, all: set<string>, b: seq<string>, more: set<string>)
    requires Lists(a, all) && Lists(b, more) && all !! more
    ensures Lists(a + b, all + more)
  {
    assert forall x | x in a :: x !in b;
    assert forall i, j | 0 <= i < |a| && 0 <= j < |b| :: a[i] in a && b[j] in b;
    forall i, j | 0 <= i < j < |a + b| ensures (a + b)[i] != (a + b)[j] {
      if j < |a| {
        assert a[i] != a[j];
      } else if i >= |a| {
        assert b[i - |a|] != b[j - |a|];
      } else {
        assert a[i] in a && b[j - |a|] in b;
      }
    }
  }

  lemma ArrangedLists(c: Collection, before: seq<string>, next: string, target: string)
    ensures Lists(Arranged(c, before, next, target), c.catalogs.Keys)
  {
    hide Lists, SortedKeys, Leads;
    var clear, onto := Clear(c, before, target), Onto(c, next);
    SortedKeysList(c.catalogs.Keys - clear - onto);
    SortedKeysList(onto - clear);
    SortedKeysList(clear);
    ListsAdd(SortedKeys(c.catalogs.Keys - clear - onto), c.catalogs.Keys - clear - onto,
             SortedKeys(onto - clear), onto - clear);
    ListsAdd(SortedKeys(c.catalogs.Keys - clear - onto) + SortedKeys(onto - clear),
             c.catalogs.Keys - clear - onto + (onto - clear), SortedKeys(clear), clear);
    assert c.catalogs.Keys - clear - onto + (onto - clear) + clear == c.catalogs.Keys;
  }

  function PlaceOf(route: seq<string>, uri: string): (i: nat)
    requires uri in route
    ensures i < |route| && route[i] == uri
  {
    if route[|route| - 1] == uri then |route| - 1 else PlaceOf(route[..|route| - 1], uri)
  }

  /** What a catalog's hash map yields: on the route, an order that goes on along the route. */
  ghost function Yielded(route: seq<string>, uri: string): seq<string>
    requires route != []
  {
    if uri !in route || PlaceOf(route, uri) == |route| - 1 then SortedKeys(FETCH(uri).catalogs.Keys)
    else
      var i := PlaceOf(route, uri) + 1;
      Arranged(FETCH(uri), route[..i], route[i], route[|route| - 1])
  }

  ghost function Along(root: Collection, universe: set<string>, route: seq<string>): Order
    requires route != []
  {
    Order(Arranged(root, [], route[0], route[|route| - 1]), map uri | uri in universe :: Yielded(route, uri))
  }

  lemma AlongIsPossible(root: Collection, universe: set<string>, route: seq<string>)
    requires route != []
    ensures Possible(root, universe, Along(root, universe, route))
  {
    hide Lists, Arranged, SortedKeys;
    ArrangedLists(root, [], route[0], route[|route| - 1]);
    forall uri | uri in universe ensures Lists(Yielded(route, uri), FETCH(uri).catalogs.Keys) {
      SortedKeysList(FETCH(uri).catalogs.Keys);
      if uri in route && PlaceOf(route, uri) < |route| - 1 {
        var i := PlaceOf(route, uri) + 1;
        ArrangedLists(FETCH(uri), route[..i], route[i], route[|route| - 1]);
      }
    }
  }

  /** The three parts of what an arranged collection pushes. */
  lemma ArrangedParts(c: Collection, before: seq<string>, next: string, target: string)
    returns (bottom: seq<string>, middle: seq<string>, top: seq<string>)
    requires Declares(c, next) && Leads(before, next, target)
    ensures EndpointsOf(c, Arranged(c, before, next, target)) == bottom + (middle + [next]) + top
    ensures forall uri :: uri in top <==> Declares(c, uri) && !Leads(before, uri, target)
  {
    hide Leads, SortedKeys, Lists, EndpointsOf;
    var clear, onto := Clear(c, before, target), Onto(c, next);
    var low, mid, high := SortedKeys(c.catalogs.Keys - clear - onto), SortedKeys(onto - clear), SortedKeys(clear);
    EndpointsAdd(c, low + mid, high);
    EndpointsAdd(c, low, mid);
    SortedKeysEnumerate(onto - clear);
    SortedKeysEnumerate(clear);
    bottom, top := EndpointsOf(c, low), EndpointsOf(c, high);
    middle := OntoEndpoints(c, mid, next);
    forall uri ensures uri in top <==> Declares(c, uri) && !Leads(before, uri, target) {
      EndpointOf(c, high, uri);
    }
  }

  lemma OntoEndpoints(c: Collection, names: seq<string>, next: string) returns (middle: seq<string>)
    requires Declares(c, next) && forall n :: n in names <==> n in c.catalogs && c.catalogs[n] == next
    ensures EndpointsOf(c, names) == middle + [next]
  {
    var n :| n in c.catalogs && c.catalogs[n] == next;
    assert n in names;
    middle := EndpointsOf(c, names[..|names| - 1]);
    assert names[|names| - 1] in names;
  }

  lemma RouteStep(root: Collection, route: seq<string>, i: nat)
    requires Route(root, route) && i < |route|
    ensures Declares(At(root, route[..i]), route[i]) && At(root, route[..i + 1]) == FETCH(route[i])
    ensures forall j | i <= j < |route| :: route[j] !in route[..i]
    ensures route[..i + 1] == route[..i] + [route[i]]
  {
    hide Declares;
  }

  lemma {:induction false} RouteLeads(root: Collection, route: seq<string>, around: seq<string>, i: nat, j: nat)
    requires Route(root, route) && i <= j < |route| && forall k | i <= k <= j :: route[k] !in around
    ensures Leads(around, route[i], route[j])
    decreases j
  {
    hide Leads, Declares, At, Route;
    if i == j {
      LeadsToItself(around, route[i]);
    } else {
      RouteLeads(root, route, around, i, j - 1);
      RouteStep(root, route, j - 1);
      RouteStep(root, route, j);
      LeadsOn(around, route[i], route[j - 1], route[j]);
    }
  }

  /** What is pushed at the i-th point of the route. */
  ghost function Stage(root: Collection, route: seq<string>, i: nat): seq<string>
    requires i < |route|
  {
    var c := At(root, route[..i]);
    EndpointsOf(c, Arranged(c, route[..i], route[i], route[|route| - 1]))
  }

  lemma StageIsPushed(root: Collection, universe: set<string>, route: seq<string>, i: nat)
    requires Route(root, route) && i + 1 < |route| && route[i] in universe
    ensures Pushed(Along(root, universe, route), route[i]) == Stage(root, route, i + 1)
  {
    hide EndpointsOf, Arranged, Declares, SortedKeys;
    assert route[i] in route && PlaceOf(route, route[i]) == i;
  }

  ghost predicate AsideBefore(root: Collection, route: seq<string>, n: nat, target: string, uri: string)
    requires n <= |route|
  {
    exists i: nat, start ::
      i < n && Declares(At(root, route[..i]), start)
      && Leads(route[..i], start, uri) && !Leads(route[..i], start, target)
  }

  lemma AsideIsBefore(root: Collection, route: seq<string>, target: string, uri: string)
    requires route != [] && Aside(root, route[..|route| - 1], target, uri)
    ensures AsideBefore(root, route, |route|, target, uri)
  {
    hide At, Leads, Declares;
    var init := route[..|route| - 1];
    var i: nat, start :| i <= |init| && Declares(At(root, init[..i]), start)
      && Leads(init[..i], start, uri) && !Leads(init[..i], start, target);
    assert init[..i] == route[..i];
  }

  /** What starts clear of the target comes to no later catalog of the route, and sees all that it leads to. */
  lemma ClearPart(root: Collection, universe: set<string>, order: Order, top: seq<string>, seen: seq<string>,
                  route: seq<string>, i: nat)
    requires Route(root, route) && i < |route| && Settled(root, universe, order, top, seen, route[..i])
    requires forall uri :: uri in top <==>
               Declares(At(root, route[..i]), uri) && !Leads(route[..i], uri, route[|route| - 1])
    requires forall j | i <= j < |route| :: route[j] !in seen
    requires forall uri | AsideBefore(root, route, i, route[|route| - 1], uri) :: uri in seen
    ensures var now := Run(universe, order, top, seen);
            && (forall j | i <= j < |route| :: route[j] !in now)
            && (forall uri | AsideBefore(root, route, i + 1, route[|route| - 1], uri) :: uri in now)
  {
    hide Leads, Declares, At, Route, Possible, Inside, Pushed, Finished;
    var now, target := Run(universe, order, top, seen), route[|route| - 1];
    forall j | i <= j < |route| ensures route[j] !in now {
      if route[j] in now {
        FetchedIsLedTo(root, universe, order, top, seen, route[..i], route[j]);
        var start :| start in top && Leads(route[..i], start, route[j]);
        RouteStep(root, route, i);
        RouteLeads(root, route, route[..i], j, |route| - 1);
        LeadsThrough(route[..i], start, route[j], target);
      }
    }
    SeenStays(universe, order, top, seen);
    StaysFinished(root, universe, order, top, seen, route[..i]);
    StackIsFetched(universe, order, top, seen);
    forall uri | AsideBefore(root, route, i + 1, target, uri) ensures uri in now {
      var h: nat, start :| h < i + 1 && Declares(At(root, route[..h]), start)
        && Leads(route[..h], start, uri) && !Leads(route[..h], start, target);
      if h == i {
        AllLedToIsSeen(root, universe, order, now, route[..i], start, uri);
      } else {
        assert AsideBefore(root, route, i, target, uri);
      }
    }
  }

  /** The arranged order takes the route, and comes to the target after everything on the route and aside of it. */
  lemma {:induction false} AlongTakesRoute(
    root: Collection, universe: set<string>, route: seq<string>, i: nat, seen: seq<string>) returns (j: nat)
    requires Route(root, route) && i < |route| && forall uri | uri in route :: uri in universe
    requires Settled(root, universe, Along(root, universe, route), Stage(root, route, i), seen, route[..i])
    requires forall k | i <= k < |route| :: route[k] !in seen
    requires forall uri | AsideBefore(root, route, i, route[|route| - 1], uri) :: uri in seen
    ensures var all := Run(universe, Along(root, universe, route), Stage(root, route, i), seen);
            && j < |all| && all[j] == route[|route| - 1] && (forall uri | uri in route[..|route| - 1] :: uri in all[..j])
            && (forall uri | AsideBefore(root, route, |route|, route[|route| - 1], uri) :: uri in all[..j])
    decreases |route| - i
  {
    hide Possible, Inside, Pushed, Declares, Finished, Route, AsideBefore, At, Along, EndpointsOf, Leads, Arranged;
    var order, target := Along(root, universe, route), route[|route| - 1];
    RouteStep(root, route, i);
    RouteLeads(root, route, route[..i], i, |route| - 1);
    var bottom, middle, top := ArrangedParts(At(root, route[..i]), route[..i], route[i], target);
    var below := bottom + middle;
    assert Stage(root, route, i) == below + [route[i]] + top by {
      assert bottom + (middle + [route[i]]) + top == below + [route[i]] + top;
    }
    AboveFirst(universe, order, below + [route[i]], top, seen);
    ClearPart(root, universe, order, top, seen, route, i);
    var first := Run(universe, order, top, seen);
    StaysFinished(root, universe, order, top, seen, route[..i]);
    SeenStays(universe, order, top, seen);
    SettledGoesOn(root, universe, order, below, route[i], first, route[..i]);
    AboveFirst(universe, order, below, [route[i]], first);
    var now := Run(universe, order, [route[i]], first);
    SeenStays(universe, order, below, now);
    if i == |route| - 1 {
      j := |first|;
      SeenStays(universe, order, Pushed(order, route[i]), first + [route[i]]);
      assert now[..j] == first;
    } else {
      StageIsPushed(root, universe, route, i);
      RouteStep(root, route, i + 1);
      assert route[i] in route[..i + 1];
      j := AlongTakesRoute(root, universe, route, i + 1, first + [route[i]]);
    }
    assert Run(universe, order, Stage(root, route, i), seen)[..j] == now[..j];
  }

  // ----- Which declaration wins -----

  lemma RunFetchesReachable(root: Collection, universe: set<string>, order: Order)
    requires Within(root, universe) && Possible(root, universe, order)
    ensures Distinct(Fetched(root, universe, order))
    ensures forall uri :: uri in Fetched(root, universe, order) <==> Reachable(root, uri)
  {
    hide Declares, Inside, Pushed, Possible, Within, Leads, EndpointsOf, Distinct;
    var stack := EndpointsOf(root, order.first);
    RootInside(root, universe, order);
    FetchedOnceFromRoot(universe, order, stack);
    assert Lists(order.first, root.catalogs.Keys) by { FirstListed(root, universe, order); }
    EndpointsAreDeclared(root, order.first);
    var all := Run(universe, order, stack, []);
    StackIsFetched(universe, order, stack, []);
    FetchedInside(universe, order, stack, []);
    forall uri | uri in all ensures Reachable(root, uri) {
      FetchedIsLedTo(root, universe, order, stack, [], [], uri);
      var start :| start in stack && Leads([], start, uri);
      LedToIsReachable(root, start, uri);
    }
    forall uri | Reachable(root, uri) ensures uri in all {
      var seen := set x | x in all;
      forall m, n | m in seen && Declares(FETCH(m), n) ensures n in seen {
        PushedIsDeclared(root, universe, order, m);
      }
      Graphs.ReachableIsSeen(Roots(root), Imported(), seen, uri);
    }
  }

  lemma FirstListed(root: Collection, universe: set<string>, order: Order)
    requires Possible(root, universe, order)
    ensures Lists(order.first, root.catalogs.Keys)
  {
  }

  lemma FetchedOnceFromRoot(universe: set<string>, order: Order, stack: seq<string>)
    requires Inside(universe, order, stack)
    ensures Distinct(Run(universe, order, stack, []))
  {
    FetchedOnce(universe, order, stack, []);
  }

  lemma LedToIsReachable(root: Collection, start: string, uri: string)
    requires Declares(root, start) && Leads([], start, uri)
    ensures Reachable(root, uri)
  {
    hide Declares;
    var path :| Graphs.IsPath(From([], start), Around([]), path) && path[|path| - 1] == uri;
    assert Graphs.IsPath(From([], start), Imported(), path) by {
      forall k | 0 <= k < |path| - 1 ensures Imported()(path[k], path[k + 1]) {
        assert Around([])(path[k], path[k + 1]);
      }
    }
    Graphs.RootIsReached(Roots(root), Imported(), start);
    Graphs.Onward(Roots(root), From([], start), Imported(), path, |path| - 1);
  }

  ghost predicate Declarer<K(!new), V>(root: Collection, part: Collection -> map<K, V>, k: K, uri: string) {
    Reachable(root, uri) && k in part(FETCH(uri))
  }

  /** The last one fetched of those that declare the name. */
  ghost predicate LastAt<K(!new), V>(fetched: seq<string>, part: Collection -> map<K, V>, k: K, uri: string, j: nat) {
    && j < |fetched| && fetched[j] == uri && k in part(FETCH(uri))
    && forall i | j < i < |fetched| :: k !in part(FETCH(fetched[i]))
  }

  ghost predicate Wins<K(!new), V>(fetched: seq<string>, part: Collection -> map<K, V>, k: K, uri: string) {
    exists j: nat :: LastAt(fetched, part, k, uri, j)
  }

  /** There is a route to the catalog with all others that declare the name on it or aside of it. */
  ghost predicate CanWin<K(!new), V>(root: Collection, part: Collection -> map<K, V>, k: K, uri: string) {
    && Declarer(root, part, k, uri)
    && exists whole :: Route(root, whole + [uri]) && OthersBefore(root, part, k, whole, uri)
  }

  ghost predicate OthersBefore<K(!new), V>(
    root: Collection, part: Collection -> map<K, V>, k: K, whole: seq<string>, uri: string)
  {
    forall other | Declarer(root, part, k, other) && other != uri :: other in whole || Aside(root, whole, uri, other)
  }

  lemma WinnersCanWin<K(!new), V>(
    root: Collection, universe: set<string>, order: Order, part: Collection -> map<K, V>, k: K, uri: string)
    requires Within(root, universe) && Possible(root, universe, order)
    requires Wins(Fetched(root, universe, order), part, k, uri)
    ensures CanWin(root, part, k, uri)
  {
    hide Within, Possible, Inside, Declares, Pushed, Route, Aside, Run, EndpointsOf, Reachable;
    var fetched, stack := Fetched(root, universe, order), EndpointsOf(root, order.first);
    var j: nat :| LastAt(fetched, part, k, uri, j);
    RunFetchesReachable(root, universe, order);
    RootInside(root, universe, order);
    StartsSettled(root, universe, order);
    var whole, at := RouteOfRun(root, universe, order, stack, [], [], uri);
    forall other | Declarer(root, part, k, other) && other != uri
      ensures other in whole || Aside(root, whole, uri, other)
    {
      var i :| 0 <= i < |fetched| && fetched[i] == other;
      assert i < at && fetched[..at][i] == other;
    }
    assert OthersBefore(root, part, k, whole, uri);
  }

  lemma StartsSettled(root: Collection, universe: set<string>, order: Order)
    requires Within(root, universe) && Possible(root, universe, order)
    ensures Settled(root, universe, order, EndpointsOf(root, order.first), [], []) && Route(root, [])
    ensures forall uri :: uri in EndpointsOf(root, order.first) <==> Declares(root, uri)
  {
    hide Declares, EndpointsOf, Inside;
    RootInside(root, universe, order);
    EndpointsAreDeclared(root, order.first);
  }

  lemma RouteInside(root: Collection, universe: set<string>, route: seq<string>)
    requires Within(root, universe) && Route(root, route)
    ensures forall uri | uri in route :: uri in universe
  {
    if route != [] {
      forall i: nat | i < |route| ensures route[i] in universe {
        RoutePointInside(root, universe, route, i);
      }
    }
  }

  lemma {:induction false} RoutePointInside(root: Collection, universe: set<string>, route: seq<string>, i: nat)
    requires Within(root, universe) && Route(root, route) && i < |route|
    ensures route[i] in universe
  {
    hide Declares;
    RouteStep(root, route, i);
    if i > 0 {
      RoutePointInside(root, universe, route, i - 1);
      RouteStep(root, route, i - 1);
    }
  }

  lemma CanWinWins<K(!new), V>(root: Collection, universe: set<string>, part: Collection -> map<K, V>, k: K, uri: string)
    returns (order: Order)
    requires Within(root, universe) && CanWin(root, part, k, uri)
    ensures Possible(root, universe, order) && Wins(Fetched(root, universe, order), part, k, uri)
  {
    hide Within, Possible, Inside, Declares, Pushed, Route, Aside, AsideBefore, Run, EndpointsOf, Reachable, Arranged;
    hide Leads;
    var whole :| Route(root, whole + [uri]) && OthersBefore(root, part, k, whole, uri);
    var route := whole + [uri];
    order := Along(root, universe, route);
    AlongIsPossible(root, universe, route);
    RouteInside(root, universe, route);
    StartsSettled(root, universe, order);
    RunFetchesReachable(root, universe, order);
    assert route[..0] == [] && Stage(root, route, 0) == EndpointsOf(root, order.first);
    NothingBefore(root, route, uri);
    var j := AlongTakesRoute(root, universe, route, 0, []);
    var fetched := Fetched(root, universe, order);
    assert fetched[j] == uri && route[..|route| - 1] == whole;
    forall i | j < i < |fetched| ensures k !in part(FETCH(fetched[i])) {
      LaterDoNotDeclare(root, part, k, whole, uri, fetched, j, i);
    }
    assert LastAt(fetched, part, k, uri, j);
  }

  lemma NothingBefore(root: Collection, route: seq<string>, target: string)
    ensures forall uri :: !AsideBefore(root, route, 0, target, uri)
  {
  }

  lemma LaterDoNotDeclare<K(!new), V>(
    root: Collection, part: Collection -> map<K, V>, k: K, whole: seq<string>, uri: string, fetched: seq<string>,
    j: nat, i: nat)
    requires Distinct(fetched) && j < i < |fetched| && fetched[j] == uri
    requires forall u :: u in fetched <==> Reachable(root, u)
    requires OthersBefore(root, part, k, whole, uri)
    requires forall u | u in whole :: u in fetched[..j]
    requires forall u | AsideBefore(root, whole + [uri], |whole| + 1, uri, u) :: u in fetched[..j]
    ensures k !in part(FETCH(fetched[i]))
  {
    hide Aside, AsideBefore, Reachable;
    var other := fetched[i];
    assert other != uri && other !in fetched[..j] by { NotTwice(fetched, j, i); }
    if other !in whole && k in part(FETCH(other)) {
      assert Declarer(root, part, k, other);
      assert (whole + [uri])[..|whole|] == whole;
      AsideIsBefore(root, whole + [uri], uri, other);
    }
  }

  lemma NotTwice(fetched: seq<string>, j: nat, i: nat)
    requires Distinct(fetched) && j < i < |fetched|
    ensures fetched[i] != fetched[j] && fetched[i] !in fetched[..j]
  {
  }

  ghost predicate WinsIn<K(!new), V>(
    root: Collection, universe: set<string>, order: Order, part: Collection -> map<K, V>, k: K, uri: string)
    requires Within(root, universe)
  {
    Possible(root, universe, order) && Wins(Fetched(root, universe, order), part, k, uri)
  }

  /** A catalog is in some run the last to be fetched of those that declare a name exactly when it can win. */
  lemma WinsExactly<K(!new), V>(
    root: Collection, universe: set<string>, part: Collection -> map<K, V>, k: K, uri: string)
    requires Within(root, universe)
    ensures (exists order :: WinsIn(root, universe, order, part, k, uri)) <==> CanWin(root, part, k, uri)
  {
    hide Within, Possible, CanWin, Wins, Fetched;
    if CanWin(root, part, k, uri) {
      var order := CanWinWins(root, universe, part, k, uri);
      assert WinsIn(root, universe, order, part, k, uri);
    }
    forall order: Order | WinsIn(root, universe, order, part, k, uri) ensures CanWin(root, part, k, uri) {
      WinnersCanWin(root, universe, order, part, k, uri);
    }
  }

  // ----- When the order shows -----

  lemma {:induction false} LastDeclarationKept<K(!new), V(!new)>(
    root: Collection, fetched: seq<string>, part: Collection -> map<K, V>, k: K, uri: string, j: nat)
    requires Overwrites(part) && LastAt(fetched, part, k, uri, j)
    ensures k in part(MergeAll(root, fetched)) && part(MergeAll(root, fetched))[k] == part(FETCH(uri))[k]
    decreases |fetched|
  {
    hide Merge, Overwrites, MergeAll;
    var init, last := fetched[..|fetched| - 1], fetched[|fetched| - 1];
    assert fetched == init + [last];
    MergeNext(root, init, last);
    MergedPart(MergeAll(root, init), FETCH(last), part);
    if j < |fetched| - 1 {
      assert k !in part(FETCH(fetched[|fetched| - 1]));
      LastDeclarationKept(root, init, part, k, uri, j);
    }
  }

  lemma MergedPart<K(!new), V(!new)>(a: Collection, b: Collection, part: Collection -> map<K, V>)
    requires Overwrites(part)
    ensures part(Merge(a, b)) == part(a) + part(b)
  {
    hide Merge;
  }

  lemma {:induction false} RootKept<K(!new), V(!new)>(
    root: Collection, fetched: seq<string>, part: Collection -> map<K, V>, k: K)
    requires Overwrites(part) && forall u | u in fetched :: k !in part(FETCH(u))
    ensures k in part(MergeAll(root, fetched)) <==> k in part(root)
    ensures k in part(root) ==> part(MergeAll(root, fetched))[k] == part(root)[k]
    decreases |fetched|
  {
    hide Merge, Overwrites, MergeAll;
    if fetched == [] {
      NothingMerged(root);
    } else {
      var init, last := fetched[..|fetched| - 1], fetched[|fetched| - 1];
      assert fetched == init + [last] && last in fetched;
      MergeNext(root, init, last);
      MergedPart(MergeAll(root, init), FETCH(last), part);
      RootKept(root, init, part, k);
    }
  }

  lemma {:induction false} LastDeclarer<K(!new), V>(fetched: seq<string>, part: Collection -> map<K, V>, k: K, n: nat)
    returns (j: nat)
    requires n <= |fetched| && forall i | n <= i < |fetched| :: k !in part(FETCH(fetched[i]))
    requires exists u :: u in fetched && k in part(FETCH(u))
    ensures j < |fetched| && LastAt(fetched, part, k, fetched[j], j)
    decreases n
  {
    if n > 0 && k in part(FETCH(fetched[n - 1])) {
      j := n - 1;
    } else {
      SomeoneLeft(fetched, part, k, n);
      j := LastDeclarer(fetched, part, k, n - 1);
    }
  }

  lemma SomeoneLeft<K(!new), V>(fetched: seq<string>, part: Collection -> map<K, V>, k: K, n: nat)
    requires n <= |fetched| && forall i | n <= i < |fetched| :: k !in part(FETCH(fetched[i]))
    requires exists u :: u in fetched && k in part(FETCH(u))
    ensures n > 0
  {
    var u :| u in fetched && k in part(FETCH(u));
    var i :| 0 <= i < |fetched| && fetched[i] == u;
  }

  /** The merged part that a run leads to. */
  ghost function Resolved<K(!new), V>(
    root: Collection, universe: set<string>, order: Order, part: Collection -> map<K, V>): map<K, V>
    requires Within(root, universe) && Possible(root, universe, order)
  {
    part(MergeAll(root, Fetched(root, universe, order)))
  }

  ghost predicate OrderFree<K(!new), V(!new)>(root: Collection, universe: set<string>, part: Collection -> map<K, V>)
    requires Within(root, universe)
  {
    forall a, b | Possible(root, universe, a) && Possible(root, universe, b) ::
      Resolved(root, universe, a, part) == Resolved(root, universe, b, part)
  }

  /** Two catalogs that can win a name give it different values. */
  ghost predicate Contest<K(!new), V>(root: Collection, part: Collection -> map<K, V>, k: K, u: string, v: string) {
    CanWin(root, part, k, u) && CanWin(root, part, k, v) && part(FETCH(u))[k] != part(FETCH(v))[k]
  }

  ghost predicate Contested<K(!new), V>(root: Collection, part: Collection -> map<K, V>, k: K) {
    exists u, v :: Contest(root, part, k, u, v)
  }

  lemma RunsKnowSameNames<K(!new), V(!new)>(
    root: Collection, universe: set<string>, a: Order, b: Order, part: Collection -> map<K, V>)
    requires Within(root, universe) && Possible(root, universe, a) && Possible(root, universe, b) && Overwrites(part)
    ensures Resolved(root, universe, a, part).Keys == Resolved(root, universe, b, part).Keys
  {
    hide Within, Possible, Fetched, Reachable, MergeAll, Overwrites;
    RunFetchesReachable(root, universe, a);
    RunFetchesReachable(root, universe, b);
    SameKeys(root, Fetched(root, universe, a), Fetched(root, universe, b), part);
  }

  /** In every run the value comes from a catalog that can win, or from the root if no catalog declares the name. */
  lemma ValueOfRun<K(!new), V(!new)>(
    root: Collection, universe: set<string>, order: Order, part: Collection -> map<K, V>, k: K) returns (u: string)
    requires Within(root, universe) && Possible(root, universe, order) && Overwrites(part)
    requires k in Resolved(root, universe, order, part)
    ensures if exists w :: Declarer(root, part, k, w)
            then CanWin(root, part, k, u) && Resolved(root, universe, order, part)[k] == part(FETCH(u))[k]
            else k in part(root) && Resolved(root, universe, order, part)[k] == part(root)[k]
  {
    hide Within, Possible, Fetched, Reachable, MergeAll, Overwrites, CanWin;
    var fetched := Fetched(root, universe, order);
    RunFetchesReachable(root, universe, order);
    u := "";
    if w :| Declarer(root, part, k, w) {
      assert w in fetched;
      var j := LastDeclarer(fetched, part, k, |fetched|);
      u := fetched[j];
      assert Wins(fetched, part, k, u);
      WinnersCanWin(root, universe, order, part, k, u);
      LastDeclarationKept(root, fetched, part, k, u, j);
    } else {
      forall w | w in fetched ensures k !in part(FETCH(w)) {
        assert !Declarer(root, part, k, w);
      }
      RootKept(root, fetched, part, k);
    }
  }

  lemma UncontestedAgree<K(!new), V(!new)>(
    root: Collection, universe: set<string>, a: Order, b: Order, part: Collection -> map<K, V>, k: K)
    requires Within(root, universe) && Possible(root, universe, a) && Possible(root, universe, b) && Overwrites(part)
    requires k in Resolved(root, universe, a, part) && k in Resolved(root, universe, b, part)
    requires !Contested(root, part, k)
    ensures Resolved(root, universe, a, part)[k] == Resolved(root, universe, b, part)[k]
  {
    hide Within, Possible, Resolved, Overwrites, CanWin, Declarer;
    var u := ValueOfRun(root, universe, a, part, k);
    var v := ValueOfRun(root, universe, b, part, k);
    assert !Contest(root, part, k, u, v);
  }

  lemma ContestedShows<K(!new), V(!new)>(root: Collection, universe: set<string>, part: Collection -> map<K, V>, k: K)
    requires Within(root, universe) && Overwrites(part) && Contested(root, part, k)
    ensures !OrderFree(root, universe, part)
  {
    hide Within, Possible, Fetched, MergeAll, Overwrites, CanWin;
    var u, v :| Contest(root, part, k, u, v);
    var a := CanWinWins(root, universe, part, k, u);
    var b := CanWinWins(root, universe, part, k, v);
    WinnerIsKept(root, universe, a, part, k, u);
    WinnerIsKept(root, universe, b, part, k, v);
  }

  lemma WinnerIsKept<K(!new), V(!new)>(
    root: Collection, universe: set<string>, order: Order, part: Collection -> map<K, V>, k: K, uri: string)
    requires Within(root, universe) && Possible(root, universe, order) && Overwrites(part)
    requires Wins(Fetched(root, universe, order), part, k, uri)
    ensures k in part(FETCH(uri)) && k in Resolved(root, universe, order, part)
    ensures Resolved(root, universe, order, part)[k] == part(FETCH(uri))[k]
  {
    hide Within, Possible, Fetched, MergeAll, Overwrites;
    var fetched := Fetched(root, universe, order);
    var j: nat :| LastAt(fetched, part, k, uri, j);
    LastDeclarationKept(root, fetched, part, k, uri, j);
  }

  lemma OrderFreeExactly<K(!new), V(!new)>(root: Collection, universe: set<string>, part: Collection -> map<K, V>)
    requires Within(root, universe) && Overwrites(part)
    ensures OrderFree(root, universe, part) <==> !exists k :: Contested(root, part, k)
  {
    hide Within, Possible, Resolved, Overwrites, Contested;
    if k :| Contested(root, part, k) {
      ContestedShows(root, universe, part, k);
    } else {
      forall a, b | Possible(root, universe, a) && Possible(root, universe, b)
        ensures Resolved(root, universe, a, part) == Resolved(root, universe, b, part)
      {
        RunsKnowSameNames(root, universe, a, b, part);
        forall k | k in Resolved(root, universe, a, part)
          ensures Resolved(root, universe, a, part)[k] == Resolved(root, universe, b, part)[k]
        {
          UncontestedAgree(root, universe, a, b, part, k);
        }
      }
    }
  }

  /**
   * The order in which the hash maps yield their names shows in the merged components exactly when two catalogs
   * that can win one name give it different values; and likewise in the merged imports.
   */
  lemma OrderDecidesClashes(root: Collection, universe: set<string>)
    requires Within(root, universe)
    ensures OrderFree(root, universe, Components) <==> !exists k :: Contested(root, Components, k)
    ensures OrderFree(root, universe, Imports) <==> !exists k :: Contested(root, Imports, k)
  {
    hide OrderFree, Contested, Within;
    OrderFreeExactly(root, universe, Components);
    OrderFreeExactly(root, universe, Imports);
  }

  // ----- Names without clashes, and names declared twice -----

  /** No two reachable catalogs declare one name with different values. */
  ghost predicate NoClash<K(!new), V>(root: Collection, part: Collection -> map<K, V>) {
    forall u, v, k | Declarer(root, part, k, u) && Declarer(root, part, k, v) :: part(FETCH(u))[k] == part(FETCH(v))[k]
  }

  /** Without clashes the order never shows. */
  lemma NoClashIsOrderFree<K(!new), V(!new)>(root: Collection, universe: set<string>, part: Collection -> map<K, V>)
    requires Within(root, universe) && Overwrites(part) && NoClash(root, part)
    ensures OrderFree(root, universe, part)
  {
    hide Within, OrderFree, Overwrites, Reachable, Route, OthersBefore;
    OrderFreeExactly(root, universe, part);
  }

  /** A catalog can be reached without passing through the given ones. */
  ghost predicate ReachableAround(root: Collection, around: seq<string>, uri: string) {
    exists start :: Declares(root, start) && Leads(around, start, uri)
  }

  lemma {:induction false} PathAvoids(before: seq<string>, start: string, path: seq<string>, other: string, k: nat)
    requires Graphs.IsPath(From(before, start), Around(before), path) && k < |path|
    requires !Leads(before, start, other)
    ensures Leads(before, start, path[k]) && Leads([other], start, path[k])
  {
    hide Declares, Leads;
    LeadsToItself(before, start);
    LeadsToItself([other], start);
    if k > 0 {
      PathAvoids(before, start, path, other, k - 1);
      assert Around(before)(path[k - 1], path[k - 1 + 1]);
      LeadsOn(before, start, path[k - 1], path[k]);
      LeadsOn([other], start, path[k - 1], path[k]);
    }
  }

  /** What is led to from where another catalog is not, is led to without passing through it. */
  lemma LeadsWithout(before: seq<string>, start: string, uri: string, other: string)
    requires Leads(before, start, uri) && !Leads(before, start, other)
    ensures Leads([other], start, uri)
  {
    hide Declares;
    var path :| Graphs.IsPath(From(before, start), Around(before), path) && path[|path| - 1] == uri;
    PathAvoids(before, start, path, other, |path| - 1);
  }

  lemma ReachableOn(root: Collection, route: seq<string>, around: seq<string>, i: nat, start: string, uri: string)
    requires Route(root, route) && i <= |route| && forall k | 0 <= k < i :: route[k] !in around
    requires Declares(At(root, route[..i]), start) && Leads(around, start, uri)
    ensures ReachableAround(root, around, uri)
  {
    hide Declares, Leads, Route, At;
    if i > 0 {
      RouteStep(root, route, 0);
      RouteStep(root, route, i - 1);
      RouteLeads(root, route, around, 0, i - 1);
      LeadsOutside(around, start, uri);
      LeadsOn(around, route[0], route[i - 1], start);
      LeadsThrough(around, route[0], start, uri);
    }
    assert route[..0] == [] && At(root, []) == root by { AtStart(root); }
  }

  lemma AtStart(root: Collection)
    ensures At(root, []) == root
  {
  }

  /** What lies on a route to a catalog or aside of it can be reached without that catalog. */
  lemma EarlierIsReachable(root: Collection, whole: seq<string>, uri: string, other: string)
    requires Route(root, whole + [uri]) && other != uri
    requires other in whole || Aside(root, whole, uri, other)
    ensures ReachableAround(root, [uri], other)
  {
    hide Declares, Leads, At;
    var route := whole + [uri];
    assert forall k | 0 <= k < |whole| :: route[k] == whole[k] && route[k] != route[|whole|];
    hide Route;
    if other in whole {
      var h :| 0 <= h < |whole| && whole[h] == other;
      RouteStep(root, route, h);
      LeadsToItself([uri], other);
      ReachableOn(root, route, [uri], h, other, other);
    } else {
      var i: nat, start :| i <= |whole| && Declares(At(root, whole[..i]), start)
        && Leads(whole[..i], start, other) && !Leads(whole[..i], start, uri);
      assert whole[..i] == route[..i];
      LeadsWithout(whole[..i], start, other, uri);
      ReachableOn(root, route, [uri], i, start, other);
    }
  }

  lemma {:induction false} PathLeaves(around: seq<string>, start: string, path: seq<string>, k: nat)
    requires Graphs.IsPath(From(around, start), Around(around), path) && k < |path|
    ensures path[k] != start ==> exists next :: Declares(FETCH(start), next) && Leads(around + [start], next, path[k])
  {
    hide Declares, Leads;
    if k > 0 && path[k] != start {
      PathLeaves(around, start, path, k - 1);
      assert Around(around)(path[k - 1], path[k - 1 + 1]);
      if path[k - 1] == start {
        LeadsToItself(around + [start], path[k]);
      } else {
        var next :| Declares(FETCH(start), next) && Leads(around + [start], next, path[k - 1]);
        LeadsOn(around + [start], next, path[k - 1], path[k]);
      }
    }
  }

  /** Some import leads on without coming back. */
  lemma LeadsAway(around: seq<string>, start: string, uri: string)
    requires Leads(around, start, uri) && start != uri
    ensures exists next :: Declares(FETCH(start), next) && Leads(around + [start], next, uri)
  {
    hide Declares;
    var path :| Graphs.IsPath(From(around, start), Around(around), path) && path[|path| - 1] == uri;
    PathLeaves(around, start, path, |path| - 1);
  }

  /** A route goes on to whatever can be reached from its end around the given catalogs. */
  lemma {:induction false} RouteTo(
    root: Collection, universe: set<string>, route: seq<string>, around: seq<string>, start: string, uri: string)
    returns (whole: seq<string>)
    requires Within(root, universe) && Route(root, route) && forall u | u in route :: u in around
    requires Declares(At(root, route), start) && Leads(around, start, uri)
    ensures Route(root, whole + [uri]) && route <= whole && forall u | u in (whole + [uri])[|route|..] :: u !in around
    decreases Unseen(universe, route)
  {
    hide Declares, Leads, At, Route, Within;
    LeadsOutside(around, start, uri);
    RouteGrows(root, route, start);
    if start == uri {
      whole := route;
      assert (whole + [uri])[|route|..] == [uri];
    } else {
      LeadsAway(around, start, uri);
      var next :| Declares(FETCH(start), next) && Leads(around + [start], next, uri);
      RouteInside(root, universe, route + [start]);
      assert start in route + [start];
      OneLessUnseen(universe, route, start);
      whole := RouteTo(root, universe, route + [start], around + [start], next, uri);
      RestOfRoute(whole + [uri], route, start, around);
    }
  }

  lemma RestOfRoute(all: seq<string>, route: seq<string>, start: string, around: seq<string>)
    requires route + [start] <= all && start !in around
    requires forall u | u in all[|route| + 1..] :: u !in around + [start]
    ensures forall u | u in all[|route|..] :: u !in around
  {
    assert all[|route|] == (route + [start])[|route|] == start;
    assert all[|route|..] == [start] + all[|route| + 1..];
    assert forall u | u in around :: u in around + [start];
  }

  /**
   * From a route to one catalog that avoids another, a route to the other
   * with the first catalog on it or aside of it.
   */
  lemma {:induction false} RouteBehind(
    root: Collection, universe: set<string>, route: seq<string>, i: nat, start: string, uri: string)
    returns (whole: seq<string>)
    requires Within(root, universe) && Route(root, route) && route != [] && uri !in route && i <= |route|
    requires Declares(At(root, route[..i]), start) && Leads(route[..i], start, uri)
    ensures Route(root, whole + [uri])
    ensures route[|route| - 1] in whole || Aside(root, whole, uri, route[|route| - 1])
    decreases |route| - i
  {
    hide Declares, Leads, At, Route, Within;
    var last := route[|route| - 1];
    RouteStart(root, route, i);
    if i < |route| && Leads(route[..i], route[i], uri) {
      RouteStep(root, route, i);
      assert route[i] in route;
      LeadsAway(route[..i], route[i], uri);
      var next :| Declares(FETCH(route[i]), next) && Leads(route[..i] + [route[i]], next, uri);
      whole := RouteBehind(root, universe, route, i + 1, next, uri);
    } else {
      whole := RouteTo(root, universe, route[..i], route[..i], start, uri);
      if i == |route| {
        assert whole[|route| - 1] == last;
      } else {
        assert whole[..i] == route[..i];
        RouteStep(root, route, i);
        RouteLeads(root, route, route[..i], i, |route| - 1);
      }
    }
  }

  lemma RouteStart(root: Collection, route: seq<string>, i: nat)
    requires Route(root, route) && i <= |route|
    ensures Route(root, route[..i])
  {
    hide Declares;
    var short := route[..i];
    forall j | 0 <= j < |short| ensures Declares(At(root, short[..j]), short[j]) {
      assert short[..j] == route[..j];
    }
  }

  ghost predicate DeclaredTwice<K(!new), V>(
    root: Collection, part: Collection -> map<K, V>, k: K, u: string, v: string)
  {
    u != v && forall w :: Declarer(root, part, k, w) <==> w == u || w == v
  }

  /** Of two catalogs that declare a name one can win exactly when the other can be reached without it. */
  lemma WinsOverOne<K(!new), V>(
    root: Collection, universe: set<string>, part: Collection -> map<K, V>, k: K, u: string, v: string)
    requires Within(root, universe) && DeclaredTwice(root, part, k, u, v)
    ensures CanWin(root, part, k, u) <==> ReachableAround(root, [u], v)
  {
    hide Within, Declarer, Route, Aside, ReachableAround;
    assert Declarer(root, part, k, u) && Declarer(root, part, k, v);
    if CanWin(root, part, k, u) {
      var whole :| Route(root, whole + [u]) && OthersBefore(root, part, k, whole, u);
      EarlierIsReachable(root, whole, u, v);
    }
    if ReachableAround(root, [u], v) {
      var whole := RouteToSecond(root, universe, part, k, u, v);
      assert OthersBefore(root, part, k, whole, u);
    }
  }

  lemma RouteToSecond<K(!new), V>(
    root: Collection, universe: set<string>, part: Collection -> map<K, V>, k: K, u: string, v: string)
    returns (whole: seq<string>)
    requires Within(root, universe) && Declarer(root, part, k, u) && ReachableAround(root, [u], v)
    ensures Route(root, whole + [u]) && (v in whole || Aside(root, whole, u, v))
  {
    hide Within, Declares, Leads, Route, Aside, At;
    AtStart(root);
    EmptyRoute(root);
    var first :| Declares(root, first) && Leads([u], first, v);
    var init := RouteTo(root, universe, [], [u], first, v);
    var route := init + [v];
    assert route[0..] == route && route[..0] == [];
    assert (init + [v])[0..] == route;
    var start := StartOf(root, u);
    whole := RouteBehind(root, universe, route, 0, start, u);
  }

  lemma EmptyRoute(root: Collection)
    ensures Route(root, [])
  {
  }

  lemma StartOf(root: Collection, uri: string) returns (start: string)
    requires Reachable(root, uri)
    ensures Declares(root, start) && Leads([], start, uri)
  {
    hide Declares;
    var path :| Graphs.IsPath(Roots(root), Imported(), path) && path[|path| - 1] == uri;
    start := path[0];
    forall k | 0 <= k < |path| - 1 ensures Around([])(path[k], path[k + 1]) {
      assert Imported()(path[k], path[k + 1]);
    }
    assert Graphs.IsPath(From([], start), Around([]), path);
  }

  /**
   * A name that exactly two catalogs declare: the order shows in it
   * if and only if they give it different values and each can be reached without the other.
   */
  lemma TwiceDeclared<K(!new), V>(
    root: Collection, universe: set<string>, part: Collection -> map<K, V>, k: K, u: string, v: string)
    requires Within(root, universe) && DeclaredTwice(root, part, k, u, v)
    ensures k in part(FETCH(u)) && k in part(FETCH(v))
    ensures Contested(root, part, k) <==>
              && part(FETCH(u))[k] != part(FETCH(v))[k]
              && ReachableAround(root, [u], v) && ReachableAround(root, [v], u)
  {
    hide Within, Route, OthersBefore, ReachableAround, Reachable;
    assert Declarer(root, part, k, u) && Declarer(root, part, k, v);
    WinsOverOne(root, universe, part, k, u, v);
    WinsOverOne(root, universe, part, k, v, u);
    hide CanWin;
    if Contested(root, part, k) {
      var a, b :| Contest(root, part, k, a, b);
      WinnersDeclare(root, part, k, a);
      WinnersDeclare(root, part, k, b);
    } else {
      assert !Contest(root, part, k, u, v);
    }
  }

  lemma WinnersDeclare<K(!new), V>(root: Collection, part: Collection -> map<K, V>, k: K, uri: string)
    requires CanWin(root, part, k, uri)
    ensures Declarer(root, part, k, uri)
  {
  }

  // ----- Inputs -----

  const K := (Errors, "timeout")

  /** A catalog or root that declares one error and imports the given catalogs. */
  function Declaring(value: Value, imports: map<string, string>): Collection {
    Collection(map[K := value], imports, [], [])
  }

  function Importing(imports: map<string, string>): Collection {
    Collection(map[], imports, [], [])
  }

  lemma FirstNames(names: seq<string>)
    ensures names != [] ==> names[0] in names
    ensures |names| > 1 ==> names[1] in names && (Distinct(names) ==> names[0] != names[1])
  {
  }

  lemma FewNames(names: seq<string>, n: string)
    ensures Lists(names, {}) <==> names == []
    ensures Lists(names, {n}) <==> names == [n]
  {
    FirstNames(names);
  }

  lemma TwoNames(a: string, b: string)
    requires a != b
    ensures Lists([a, b], {a, b})
  {
  }

  lemma FewEndpoints(c: Collection, a: string, b: string)
    ensures EndpointsOf(c, []) == []
    ensures a in c.catalogs ==> EndpointsOf(c, [a]) == [c.catalogs[a]]
    ensures a in c.catalogs && b in c.catalogs ==> EndpointsOf(c, [a, b]) == [c.catalogs[a], c.catalogs[b]]
  {
    assert [a][..0] == [] && [a, b][..1] == [a];
  }

  lemma OneStep(universe: set<string>, order: Order, rest: seq<string>, uri: string, seen: seq<string>)
    requires Inside(universe, order, rest + [uri]) && uri !in seen
    ensures Inside(universe, order, rest + Pushed(order, uri))
    ensures Run(universe, order, rest + [uri], seen) == Run(universe, order, rest + Pushed(order, uri), seen + [uri])
  {
    NextStep(universe, order, rest, uri, seen);
  }

  lemma TwoMerged(root: Collection, u: string, v: string)
    ensures MergeAll(root, [u, v]).components == root.components + FETCH(u).components + FETCH(v).components
  {
    assert [u, v][..1] == [u] && [u][..0] == [];
    assert MergeAll(root, [u]) == Merge(root, FETCH(u));
    assert MergeAll(root, [u, v]) == Merge(MergeAll(root, [u]), FETCH(v));
  }

  lemma SiblingRun(root: Collection, universe: set<string>, order: Order, u: string, v: string)
    requires Within(root, universe) && Possible(root, universe, order) && u != v
    requires EndpointsOf(root, order.first) == [v, u] && Pushed(order, u) == [] == Pushed(order, v)
    ensures Fetched(root, universe, order) == [u, v]
  {
    hide Inside, Run, Pushed, EndpointsOf, Within, Possible;
    RootInside(root, universe, order);
    var none: seq<string> := [];
    assert [v, u] == [v] + [u] && [v] + none == none + [v] && none + none == none;
    assert none + [u] == [u] && [u] + [v] == [u, v];
    OneStep(universe, order, [v], u, []);
    OneStep(universe, order, [], v, [u]);
    NoMoreSteps(universe, order, [u, v]);
  }

  /** One of the two orders: the name listed last is fetched first. */
  lemma SiblingOrder(root: Collection, a: string, u: string, b: string, v: string) returns (order: Order)
    requires a != b && u != v && root.catalogs == map[a := u, b := v]
    requires FETCH(u).catalogs == map[] == FETCH(v).catalogs
    ensures order == Order([b, a], map[u := [], v := []])
    ensures Within(root, {u, v}) && Possible(root, {u, v}, order) && Fetched(root, {u, v}, order) == [u, v]
  {
    order := Order([b, a], map[u := [], v := []]);
    assert root.catalogs.Keys == {b, a} && FETCH(u).catalogs.Keys == {} == FETCH(v).catalogs.Keys;
    hide Lists, EndpointsOf, Run, Inside;
    TwoNames(b, a);
    FewNames([], a);
    FewEndpoints(root, b, a);
    FewEndpoints(FETCH(u), a, b);
    FewEndpoints(FETCH(v), a, b);
    SiblingRun(root, {u, v}, order, u, v);
  }

  /** The root imports two catalogs that clash: both orders occur, and the last one fetched wins. */
  lemma SiblingsShow(x: Value, y: Value)
    requires FETCH("A") == Declaring(x, map[]) && FETCH("B") == Declaring(y, map[]) && x != y
    ensures var root, universe := Importing(map["a" := "A", "b" := "B"]), {"A", "B"};
            var ab, ba := Order(["b", "a"], map["A" := [], "B" := []]), Order(["a", "b"], map["A" := [], "B" := []]);
            && Within(root, universe) && Possible(root, universe, ab) && Possible(root, universe, ba)
            && Fetched(root, universe, ab) == ["A", "B"] && Fetched(root, universe, ba) == ["B", "A"]
            && Resolved(root, universe, ab, Components) == map[K := y]
            && Resolved(root, universe, ba, Components) == map[K := x]
  {
    hide Within, Possible, Fetched, MergeAll;
    var root := Importing(map["a" := "A", "b" := "B"]);
    var none: seq<string> := [];
    assert {"A", "B"} == {"B", "A"} && map["A" := none, "B" := none] == map["B" := none, "A" := none];
    var ab := SiblingOrder(root, "a", "A", "b", "B");
    var ba := SiblingOrder(root, "b", "B", "a", "A");
    TwoMerged(root, "A", "B");
    TwoMerged(root, "B", "A");
  }

  /** The root imports one catalog, which imports another that it clashes with: every run fetches them in this order. */
  lemma ChainDoesNotShow(x: Value, y: Value, order: Order)
    requires FETCH("A") == Declaring(x, map["b" := "B"]) && FETCH("B") == Declaring(y, map[]) && x != y
    requires Possible(Importing(map["a" := "A"]), {"A", "B"}, order)
    ensures var root, universe := Importing(map["a" := "A"]), {"A", "B"};
            && Within(root, universe) && !NoClash(root, Components)
            && Fetched(root, universe, order) == ["A", "B"]
            && Resolved(root, universe, order, Components) == map[K := y]
  {
    var root, universe := Importing(map["a" := "A"]), {"A", "B"};
    hide Fetched, MergeAll, Reachable;
    ChainIsForced(root, universe, order);
    TwoMerged(root, "A", "B");
    RunFetchesReachable(root, universe, order);
    assert Fetched(root, universe, order)[0] == "A" && Fetched(root, universe, order)[1] == "B";
    assert Declarer(root, Components, K, "A") && Declarer(root, Components, K, "B");
  }

  lemma ChainIsForced(root: Collection, universe: set<string>, order: Order)
    requires root.catalogs == map["a" := "A"] && universe == {"A", "B"} && Possible(root, universe, order)
    requires FETCH("A").catalogs == map["b" := "B"] && FETCH("B").catalogs == map[]
    ensures Within(root, universe) && Fetched(root, universe, order) == ["A", "B"]
  {
    hide Lists, EndpointsOf, Run, Fetched;
    assert root.catalogs.Keys == {"a"} && FETCH("A").catalogs.Keys == {"b"} && FETCH("B").catalogs.Keys == {};
    FewNames(order.first, "a");
    FewNames(order.nested["A"], "b");
    FewNames(order.nested["B"], "b");
    FewEndpoints(root, "a", "a");
    FewEndpoints(FETCH("A"), "b", "b");
    FewEndpoints(FETCH("B"), "b", "b");
    ChainRun(root, universe, order, "A", "B");
  }

  lemma ChainRun(root: Collection, universe: set<string>, order: Order, u: string, v: string)
    requires Within(root, universe) && Possible(root, universe, order) && u != v
    requires EndpointsOf(root, order.first) == [u] && Pushed(order, u) == [v] && Pushed(order, v) == []
    ensures Fetched(root, universe, order) == [u, v]
  {
    hide Inside, Run, Pushed, EndpointsOf, Within, Possible;
    RootInside(root, universe, order);
    var none: seq<string> := [];
    assert none + [u] == [u] && none + [v] == [v] && none + none == none && [u] + [v] == [u, v];
    OneStep(universe, order, [], u, []);
    OneStep(universe, order, [], v, [u]);
    NoMoreSteps(universe, order, [u, v]);
  }
}
