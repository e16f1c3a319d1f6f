/** Resolving component catalogs: following nested imports and merging what they declare. */
module Catalog {
  import opened Json
  import Graphs

  datatype Kind = Authentications | Errors | Functions | Retries | Timeouts

  /** `components` holds the named components of every kind, `catalogs` the endpoint of every imported catalog. */
  datatype Collection = Collection(
    components: map<(Kind, string), Value>, catalogs: map<string, string>,
    secrets: seq<string>, extensions: seq<Value>)

  // What a fetch from an endpoint returns; every fetch succeeds.
  const FETCH: string -> Collection

  /** Named components of the import replace those of the same name, lists grow. */
  function Merge(into: Collection, from: Collection): Collection {
    Collection(into.components + from.components, into.catalogs + from.catalogs,
               into.secrets + from.secrets, into.extensions + from.extensions)
  }

  function MergeAll(root: Collection, uris: seq<string>): Collection {
    if uris == [] then root else Merge(MergeAll(root, uris[..|uris| - 1]), FETCH(uris[|uris| - 1]))
  }

  // ----- The catalogs a collection leads to -----

  predicate Declares(c: Collection, uri: string) {
    uri in c.catalogs.Values
  }

  ghost function Roots(root: Collection): string -> bool {
    uri => Declares(root, uri)
  }

  ghost function Imported(): (string, string) -> bool {
    (uri, next) => Declares(FETCH(uri), next)
  }

  ghost predicate Reachable(root: Collection, uri: string) {
    Graphs.Reachable(Roots(root), Imported(), uri)
  }

  /** The graph is finite: all endpoints lie in one set. */
  ghost predicate Within(root: Collection, universe: set<string>) {
    && (forall uri | Declares(root, uri) :: uri in universe)
    && (forall uri, next | uri in universe && Declares(FETCH(uri), next) :: next in universe)
  }

  lemma StepReaches(root: Collection, uri: string, next: string)
    requires Reachable(root, uri) && Declares(FETCH(uri), next)
    ensures Reachable(root, next)
  {
    Graphs.StepIsReached(Roots(root), Imported(), uri, next);
  }

  lemma RootReaches(root: Collection, uri: string)
    requires Declares(root, uri)
    ensures Reachable(root, uri)
  {
    Graphs.RootIsReached(Roots(root), Imported(), uri);
  }

  ghost predicate Open(root: Collection, visited: set<string>, queue: seq<string>) {
    && (forall uri | Declares(root, uri) :: uri in visited || uri in queue)
    && (forall uri, next | uri in visited && Declares(FETCH(uri), next) :: next in visited || next in queue)
  }

  lemma ReachableVisited(root: Collection, visited: set<string>, uri: string)
    requires Reachable(root, uri) && Open(root, visited, [])
    ensures uri in visited
  {
    Graphs.ReachableIsSeen(Roots(root), Imported(), visited, uri);
  }

  // ----- The worklist -----

  predicate Distinct(s: seq<string>) {
    forall i, j | 0 <= i < j < |s| :: s[i] != s[j]
  }

  function Elements(s: seq<string>): set<string> {
    set u | u in s
  }

  /** The names of the set, each once, in some order. */
  ghost predicate Lists(names: seq<string>, all: set<string>) {
    Distinct(names) && forall n :: n in names <==> n in all
  }

  /** The endpoints of the named imports. */
  function EndpointsOf(c: Collection, names: seq<string>): seq<string> {
    if names == [] then []
    else
      var name := names[|names| - 1];
      EndpointsOf(c, names[..|names| - 1]) + if name in c.catalogs then [c.catalogs[name]] else []
  }

  lemma {:induction false} EndpointOf(c: Collection, names: seq<string>, uri: string)
    ensures uri in EndpointsOf(c, names) <==> exists n :: n in names && n in c.catalogs && c.catalogs[n] == uri
  {
    if names != [] {
      var init, name := names[..|names| - 1], names[|names| - 1];
      assert names == init + [name];
      EndpointOf(c, init, uri);
    }
  }

  lemma EndpointsAreDeclared(c: Collection, names: seq<string>)
    requires Lists(names, c.catalogs.Keys)
    ensures forall uri :: uri in EndpointsOf(c, names) <==> Declares(c, uri)
  {
    forall uri ensures uri in EndpointsOf(c, names) <==> Declares(c, uri) {
      EndpointOf(c, names, uri);
    }
  }

  /** Lists the endpoints of the imported catalogs in the order in which the hash map yields their names. */
  method Endpoints(c: Collection, names: seq<string>) returns (uris: seq<string>)
    ensures uris == EndpointsOf(c, names)
  {
    uris := [];
    for i := 0 to |names|
      invariant uris == EndpointsOf(c, names[..i])
    {
      assert names[..i + 1][..i] == names[..i];
      if names[i] in c.catalogs {
        uris := uris + [c.catalogs[names[i]]];
      }
    }
    assert names[..|names|] == names;
  }

  // ----- The order of fetching -----

  /** The order in which each hash map yields its names: that of the root, and that of every catalog. */
  datatype Order = Order(first: seq<string>, nested: map<string, seq<string>>)

  ghost predicate Possible(root: Collection, universe: set<string>, order: Order) {
    && Lists(order.first, root.catalogs.Keys)
    && forall uri | uri in universe :: uri in order.nested && Lists(order.nested[uri], FETCH(uri).catalogs.Keys)
  }

  /** What a fetched catalog puts on the stack. */
  function Pushed(order: Order, uri: string): seq<string> {
    EndpointsOf(FETCH(uri), if uri in order.nested then order.nested[uri] else [])
  }

  /** The stack stays inside a finite set. */
  predicate Inside(universe: set<string>, order: Order, stack: seq<string>) {
    && (forall uri | uri in stack :: uri in universe)
    && (forall uri | uri in universe :: forall next | next in Pushed(order, uri) :: next in universe)
  }

  function Unseen(universe: set<string>, seen: seq<string>): set<string> {
    set uri | uri in universe && uri !in seen
  }

  lemma OneLessUnseen(universe: set<string>, seen: seq<string>, uri: string)
    requires uri in universe && uri !in seen
    ensures Unseen(universe, seen + [uri]) < Unseen(universe, seen)
  {
    assert uri in Unseen(universe, seen) && uri !in Unseen(universe, seen + [uri]);
  }

  /** The catalogs in the order they are fetched: the last endpoint comes first, and a catalog's imports come next. */
  function Run(universe: set<string>, order: Order, stack: seq<string>, seen: seq<string>): seq<string>
    requires Inside(universe, order, stack)
    decreases Unseen(universe, seen), |stack|
  {
    if stack == [] then seen
    else
      var rest, uri := stack[..|stack| - 1], stack[|stack| - 1];
      if uri in seen then Run(universe, order, rest, seen)
      else
        OneLessUnseen(universe, seen, uri);
        Run(universe, order, rest + Pushed(order, uri), seen + [uri])
  }

  lemma RootInside(root: Collection, universe: set<string>, order: Order)
    requires Within(root, universe) && Possible(root, universe, order)
    ensures Inside(universe, order, EndpointsOf(root, order.first))
  {
    EndpointsAreDeclared(root, order.first);
    forall uri | uri in universe ensures forall next | next in Pushed(order, uri) :: next in universe {
      EndpointsAreDeclared(FETCH(uri), order.nested[uri]);
    }
  }

  /** The whole run from the root. */
  ghost function Fetched(root: Collection, universe: set<string>, order: Order): seq<string>
    requires Within(root, universe) && Possible(root, universe, order)
  {
    RootInside(root, universe, order);
    Run(universe, order, EndpointsOf(root, order.first), [])
  }

  /** Everything seen so far is reachable and lies in the finite graph. */
  ghost predicate Sound(root: Collection, universe: set<string>, uris: seq<string>) {
    forall uri | uri in uris :: Reachable(root, uri) && uri in universe
  }

  lemma QueueRoot(root: Collection, universe: set<string>, queue: seq<string>)
    requires Within(root, universe) && forall uri :: uri in queue <==> Declares(root, uri)
    ensures Sound(root, universe, queue) && Open(root, {}, queue)
  {
    hide Declares, Reachable;
    forall uri | uri in queue ensures Reachable(root, uri) {
      RootReaches(root, uri);
    }
  }

  lemma QueueNested(
    root: Collection, universe: set<string>, visited: set<string>, queue: seq<string>, uri: string, nested: seq<string>)
    requires Within(root, universe) && Sound(root, universe, queue + [uri]) && Open(root, visited, queue + [uri])
    requires forall next :: next in nested <==> Declares(FETCH(uri), next)
    ensures uri in universe && Reachable(root, uri)
    ensures Sound(root, universe, queue + nested) && Open(root, visited + {uri}, queue + nested)
  {
    hide Declares, Reachable;
    assert uri in queue + [uri];
    forall next | next in queue + nested ensures Reachable(root, next) && next in universe {
      if next in nested {
        StepReaches(root, uri, next);
      } else {
        assert next in queue + [uri];
      }
    }
  }

  lemma DropVisited(root: Collection, universe: set<string>, visited: set<string>, queue: seq<string>, uri: string)
    requires Sound(root, universe, queue + [uri]) && Open(root, visited, queue + [uri]) && uri in visited
    ensures Sound(root, universe, queue) && Open(root, visited, queue)
  {
    hide Declares, Reachable;
    forall next | next in queue ensures next in queue + [uri] {
    }
  }

  lemma NextStep(universe: set<string>, order: Order, rest: seq<string>, uri: string, seen: seq<string>)
    requires Inside(universe, order, rest + [uri])
    ensures Inside(universe, order, rest)
    ensures uri in seen ==> Run(universe, order, rest + [uri], seen) == Run(universe, order, rest, seen)
    ensures uri !in seen ==>
              && Inside(universe, order, rest + Pushed(order, uri))
              && Run(universe, order, rest + [uri], seen) ==
                 Run(universe, order, rest + Pushed(order, uri), seen + [uri])
  {
    var stack := rest + [uri];
    assert stack[..|stack| - 1] == rest && stack[|stack| - 1] == uri;
    assert forall q | q in rest :: q in stack;
    assert uri in stack;
  }

  /** Fetches every reachable catalog exactly once, whatever cycles the imports form, and merges each as it arrives. */
  method ResolveDefinition(root: Collection, order: Order, ghost universe: set<string>)
    returns (merged: Collection, fetched: seq<string>)
    requires Within(root, universe) && Possible(root, universe, order)
    ensures forall uri :: uri in fetched <==> Reachable(root, uri)
    ensures fetched == Fetched(root, universe, order)
    ensures Distinct(fetched) && merged == MergeAll(root, fetched)
  {
    hide Declares, Reachable, Merge, MergeAll, Open, Sound, Within, Distinct, Elements, Inside, Run, Lists, EndpointsOf;
    merged := root;
    fetched := [];
    var queue := Endpoints(root, order.first);
    var visited: set<string> := {};
    EndpointsAreDeclared(root, order.first);
    RootInside(root, universe, order);
    QueueRoot(root, universe, queue);
    NothingMerged(root);
    ElementsAre(fetched);
    while queue != []
      invariant visited == Elements(fetched) && Distinct(fetched) && visited <= universe
      invariant forall uri | uri in visited :: Reachable(root, uri)
      invariant merged == MergeAll(root, fetched)
      invariant Sound(root, universe, queue) && Open(root, visited, queue)
      invariant Inside(universe, order, queue)
      invariant Run(universe, order, queue, fetched) == Fetched(root, universe, order)
      decreases universe - visited, |queue|
    {
      var uri := queue[|queue| - 1];
      assert queue == queue[..|queue| - 1] + [uri];
      queue := queue[..|queue| - 1];
      NextStep(universe, order, queue, uri, fetched);
      ElementsAre(fetched);
      if uri in visited {
        DropVisited(root, universe, visited, queue, uri);
      } else {
        var collection := FETCH(uri);
        NextInUniverse(root, universe, queue, uri);
        EndpointsAreDeclared(collection, order.nested[uri]);
        var nested := Endpoints(collection, order.nested[uri]);
        QueueNested(root, universe, visited, queue, uri, nested);
        FetchOne(universe, fetched, visited, uri);
        visited := visited + {uri};
        queue := queue + nested;
        MergeNext(root, fetched, uri);
        fetched := fetched + [uri];
        merged := Merge(merged, collection);
      }
    }
    NoMoreSteps(universe, order, fetched);
    ElementsAre(fetched);
    forall uri | Reachable(root, uri) ensures uri in fetched {
      ReachableVisited(root, visited, uri);
    }
  }

  lemma NextInUniverse(root: Collection, universe: set<string>, queue: seq<string>, uri: string)
    requires Sound(root, universe, queue + [uri])
    ensures uri in universe
  {
    assert uri in queue + [uri];
  }

  lemma NoMoreSteps(universe: set<string>, order: Order, seen: seq<string>)
    ensures Inside(universe, order, []) ==> Run(universe, order, [], seen) == seen
  {
  }

  lemma ElementsAre(s: seq<string>)
    ensures forall u :: u in Elements(s) <==> u in s
    ensures Elements([]) == {} && Distinct([])
  {
  }

  lemma FetchOne(universe: set<string>, fetched: seq<string>, visited: set<string>, uri: string)
    requires visited == Elements(fetched) && Distinct(fetched) && uri !in visited && uri in universe
    ensures Elements(fetched + [uri]) == visited + {uri} && Distinct(fetched + [uri])
    ensures universe - (visited + {uri}) < universe - visited
  {
    forall u ensures u in Elements(fetched + [uri]) <==> u in visited || u == uri {
    }
    assert uri in universe - visited;
  }

  lemma NothingMerged(root: Collection)
    ensures MergeAll(root, []) == root
  {
  }

  lemma MergeNext(root: Collection, uris: seq<string>, uri: string)
    ensures MergeAll(root, uris + [uri]) == Merge(MergeAll(root, uris), FETCH(uri))
  {
    assert (uris + [uri])[..|uris|] == uris;
  }

  // ----- What does not depend on the order -----

  function Components(c: Collection): map<(Kind, string), Value> {
    c.components
  }

  function Imports(c: Collection): map<string, string> {
    c.catalogs
  }

  function Secrets(c: Collection): seq<string> {
    c.secrets
  }

  function Extensions(c: Collection): seq<Value> {
    c.extensions
  }

  ghost predicate Overwrites<K(!new), V(!new)>(part: Collection -> map<K, V>) {
    forall a, b :: part(Merge(a, b)) == part(a) + part(b)
  }

  ghost predicate Appends<T(!new)>(part: Collection -> seq<T>) {
    forall a, b :: part(Merge(a, b)) == part(a) + part(b)
  }

  lemma MergeKeys<K(!new), V(!new)>(a: Collection, b: Collection, part: Collection -> map<K, V>, k: K)
    requires Overwrites(part)
    ensures k in part(Merge(a, b)) <==> k in part(a) || k in part(b)
  {
    hide Merge;
    assert part(Merge(a, b)) == part(a) + part(b);
  }

  lemma DeclaredInOneMore<K, V>(init: seq<string>, last: string, part: Collection -> map<K, V>, k: K)
    ensures (exists u :: u in init + [last] && k in part(FETCH(u))) <==>
            (exists u :: u in init && k in part(FETCH(u))) || k in part(FETCH(last))
  {
    if k in part(FETCH(last)) {
      assert last in init + [last];
    }
    if u :| u in init && k in part(FETCH(u)) {
      assert u in init + [last];
    }
  }

  lemma {:induction false} MergedKeys<K(!new), V(!new)>(
    root: Collection, uris: seq<string>, part: Collection -> map<K, V>, k: K)
    requires Overwrites(part)
    ensures k in part(MergeAll(root, uris)) <==> k in part(root) || exists u :: u in uris && k in part(FETCH(u))
    decreases |uris|
  {
    hide MergeAll, Merge, Overwrites;
    if uris == [] {
      NothingMerged(root);
    } else {
      var init, last := uris[..|uris| - 1], uris[|uris| - 1];
      assert uris == init + [last];
      MergedKeys(root, init, part, k);
      MergeNext(root, init, last);
      MergeKeys(MergeAll(root, init), FETCH(last), part, k);
      DeclaredInOneMore(init, last, part, k);
    }
  }

  function Occurrences<T(==)>(uris: seq<string>, part: Collection -> seq<T>, x: T): nat {
    if uris == [] then 0
    else Occurrences(uris[..|uris| - 1], part, x) + multiset(part(FETCH(uris[|uris| - 1])))[x]
  }

  lemma {:induction false} MergedItems<T(!new)>(root: Collection, uris: seq<string>, part: Collection -> seq<T>, x: T)
    requires Appends(part)
    ensures multiset(part(MergeAll(root, uris)))[x] == multiset(part(root))[x] + Occurrences(uris, part, x)
  {
    if uris != [] {
      var init, last := uris[..|uris| - 1], uris[|uris| - 1];
      MergedItems(root, init, part, x);
    }
  }

  /** Removing an element from a list without duplicates removes its share. */
  lemma {:induction false} WithoutOne<T>(uris: seq<string>, i: nat, part: Collection -> seq<T>, x: T)
    requires i < |uris|
    ensures Occurrences(uris, part, x) ==
            Occurrences(uris[..i] + uris[i + 1..], part, x) + multiset(part(FETCH(uris[i])))[x]
    decreases |uris|
  {
    var init, last := uris[..|uris| - 1], uris[|uris| - 1];
    if i == |uris| - 1 {
      assert uris[..i] + uris[i + 1..] == init;
    } else {
      var less := uris[..i] + uris[i + 1..];
      assert less[..|less| - 1] == init[..i] + init[i + 1..];
      assert less[|less| - 1] == last;
      WithoutOne(init, i, part, x);
    }
  }

  lemma EmptyHasNone(uris: seq<string>)
    ensures uris == [] <==> forall u :: u !in uris
  {
    if uris != [] {
      assert uris[0] in uris;
    }
  }

  lemma {:induction false} SameOccurrences<T>(a: seq<string>, b: seq<string>, part: Collection -> seq<T>, x: T)
    requires Distinct(a) && Distinct(b) && forall u :: u in a <==> u in b
    ensures Occurrences(a, part, x) == Occurrences(b, part, x)
    decreases |a|
  {
    if a == [] {
      EmptyHasNone(b);
    } else {
      var init, last := a[..|a| - 1], a[|a| - 1];
      assert last in b;
      var i :| 0 <= i < |b| && b[i] == last;
      var rest := b[..i] + b[i + 1..];
      WithoutOne(b, i, part, x);
      assert a == init + [last];
      forall u ensures u in init <==> u in rest {
        assert u in rest <==> u in b && u != last;
        assert u in init <==> u in a && u != last;
      }
      SameOccurrences(init, rest, part, x);
    }
  }

  lemma SameItems<T(!new)>(root: Collection, a: seq<string>, b: seq<string>, part: Collection -> seq<T>)
    requires Appends(part) && Distinct(a) && Distinct(b) && forall u :: u in a <==> u in b
    ensures multiset(part(MergeAll(root, a))) == multiset(part(MergeAll(root, b)))
  {
    hide MergeAll, Occurrences, Distinct, Appends;
    forall x ensures multiset(part(MergeAll(root, a)))[x] == multiset(part(MergeAll(root, b)))[x] {
      MergedItems(root, a, part, x);
      MergedItems(root, b, part, x);
      SameOccurrences(a, b, part, x);
    }
  }

  lemma SameKeys<K(!new), V(!new)>(root: Collection, a: seq<string>, b: seq<string>, part: Collection -> map<K, V>)
    requires Overwrites(part) && forall u :: u in a <==> u in b
    ensures part(MergeAll(root, a)).Keys == part(MergeAll(root, b)).Keys
  {
    hide MergeAll, Overwrites;
    forall k ensures k in part(MergeAll(root, a)) <==> k in part(MergeAll(root, b)) {
      MergedKeys(root, a, part, k);
      MergedKeys(root, b, part, k);
    }
  }

  /**
   * Any two orders of fetching the same catalogs merge to the same names,
   * and to the same secrets and extensions, each as often.
   */
  lemma OrderDoesNotMatter(root: Collection, a: seq<string>, b: seq<string>)
    requires Distinct(a) && Distinct(b) && forall u :: u in a <==> u in b
    ensures var x, y := MergeAll(root, a), MergeAll(root, b);
            && x.components.Keys == y.components.Keys && x.catalogs.Keys == y.catalogs.Keys
            && multiset(x.secrets) == multiset(y.secrets) && multiset(x.extensions) == multiset(y.extensions)
  {
    hide MergeAll, Distinct;
    SameKeys(root, a, b, Components);
    SameKeys(root, a, b, Imports);
    SameItems(root, a, b, Secrets);
    SameItems(root, a, b, Extensions);
  }

  /** What the fetched collections list, in the order of fetching. */
  function Listed<T>(uris: seq<string>, part: Collection -> seq<T>): seq<T> {
    if uris == [] then [] else part(FETCH(uris[0])) + Listed(uris[1..], part)
  }

  lemma {:induction false} ListedMore<T>(uris: seq<string>, uri: string, part: Collection -> seq<T>)
    ensures Listed(uris + [uri], part) == Listed(uris, part) + part(FETCH(uri))
    decreases |uris|
  {
    if uris == [] {
      assert (uris + [uri])[1..] == [];
    } else {
      assert (uris + [uri])[1..] == uris[1..] + [uri];
      ListedMore(uris[1..], uri, part);
    }
  }

  /** Secrets and extensions are the root's own and behind them those of the catalogs, in the order of fetching. */
  lemma {:induction false} ListsInOrder(root: Collection, uris: seq<string>)
    ensures MergeAll(root, uris).secrets == root.secrets + Listed(uris, (c: Collection) => c.secrets)
    ensures MergeAll(root, uris).extensions == root.extensions + Listed(uris, (c: Collection) => c.extensions)
    decreases |uris|
  {
    if uris != [] {
      var init, last := uris[..|uris| - 1], uris[|uris| - 1];
      assert uris == init + [last];
      ListsInOrder(root, init);
      ListedMore(init, last, (c: Collection) => c.secrets);
      ListedMore(init, last, (c: Collection) => c.extensions);
    }
  }

  /** A named component or import is the one of the last catalog fetched that declares it, else the root's. */
  lemma {:induction false} LastDeclarerWins(root: Collection, uris: seq<string>, k: (Kind, string), name: string, at: nat)
    requires at < |uris|
    ensures k in FETCH(uris[at]).components && (forall i | at < i < |uris| :: k !in FETCH(uris[i]).components) ==>
              k in MergeAll(root, uris).components && MergeAll(root, uris).components[k] == FETCH(uris[at]).components[k]
    ensures name in FETCH(uris[at]).catalogs && (forall i | at < i < |uris| :: name !in FETCH(uris[i]).catalogs) ==>
              name in MergeAll(root, uris).catalogs && MergeAll(root, uris).catalogs[name] == FETCH(uris[at]).catalogs[name]
    decreases |uris|
  {
    var init := uris[..|uris| - 1];
    if at < |init| {
      LastDeclarerWins(root, init, k, name, at);
      assert uris[|uris| - 1] == uris[|init|];
      assert forall i | 0 <= i < |init| :: init[i] == uris[i];
    }
  }

  lemma {:induction false} RootIsKept(root: Collection, uris: seq<string>, k: (Kind, string), name: string)
    ensures (forall i | 0 <= i < |uris| :: k !in FETCH(uris[i]).components) ==>
              (k in MergeAll(root, uris).components <==> k in root.components)
              && (k in root.components ==> MergeAll(root, uris).components[k] == root.components[k])
    ensures (forall i | 0 <= i < |uris| :: name !in FETCH(uris[i]).catalogs) ==>
              (name in MergeAll(root, uris).catalogs <==> name in root.catalogs)
              && (name in root.catalogs ==> MergeAll(root, uris).catalogs[name] == root.catalogs[name])
    decreases |uris|
  {
    if uris != [] {
      var init := uris[..|uris| - 1];
      RootIsKept(root, init, k, name);
      assert forall i | 0 <= i < |init| :: init[i] == uris[i];
      assert uris[|uris| - 1] == uris[|init|];
    }
  }
}
