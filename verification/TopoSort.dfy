/** The topological sort of the components of a service: a depth-first search with three colours. */
module TopoSort {
  import opened Prelude

  datatype Component = Component(name: string, dependencies: seq<string>)

  datatype SortError = MissingComponent(name: string) | ComponentCycle(name: string)

  type ComponentMap = map<string, Component>

  /** Components by name; of components with the same name the last one counts. */
  function MapOf(cs: seq<Component>): (m: ComponentMap)
    ensures forall c :: c in cs ==> c.name in m
    ensures forall n :: n in m ==> m[n] in cs && m[n].name == n
  {
    if cs == [] then map[]
    else
      var last := cs[|cs| - 1];
      assert cs == cs[..|cs| - 1] + [last];
      MapOf(cs[..|cs| - 1])[last.name := last]
  }

  lemma MapOfMore(cs: seq<Component>, i: nat)
    requires i < |cs|
    ensures MapOf(cs[..i + 1]) == MapOf(cs[..i])[cs[i].name := cs[i]]
  {
    assert cs[..i + 1][..i] == cs[..i];
  }

  predicate UniqueNames(cs: seq<Component>) {
    forall i, j :: 0 <= i < j < |cs| ==> cs[i].name != cs[j].name
  }

  // ---- When there is no order.

  ghost predicate HasMissing(m: ComponentMap) {
    exists n, v :: n in m && v in m[n].dependencies && v !in m
  }

  /** Each component depends on the next one. */
  ghost predicate Chain(m: ComponentMap, names: seq<string>) {
    && (forall i :: 0 <= i < |names| ==> names[i] in m)
    && (forall i, j :: 0 <= i < |names| && j == i + 1 < |names| ==> names[j] in m[names[i]].dependencies)
  }

  ghost predicate HasCycle(m: ComponentMap) {
    exists names :: IsCycle(m, names)
  }

  ghost predicate IsCycle(m: ComponentMap, names: seq<string>) {
    |names| >= 2 && Chain(m, names) && names[0] == names[|names| - 1]
  }

  /** The error names a component that is missing although another depends on it, or one that is on a cycle. */
  ghost predicate Explained(m: ComponentMap, err: SortError) {
    match err
    case MissingComponent(v) => v !in m && exists n :: n in m && v in m[n].dependencies
    case ComponentCycle(v) => exists names :: IsCycle(m, names) && names[0] == v
  }

  // ---- When there is one.

  /** Each component comes after all its dependencies. */
  ghost predicate DependenciesFirst(ordered: seq<Component>) {
    forall i, v :: 0 <= i < |ordered| && v in ordered[i].dependencies ==> Placed(ordered, v, i)
  }

  ghost predicate Placed(ordered: seq<Component>, name: string, before: nat) {
    exists j :: 0 <= j < before && j < |ordered| && ordered[j].name == name
  }

  ghost predicate IsOrder(cs: seq<Component>, ordered: seq<Component>) {
    multiset(ordered) == multiset(cs) && DependenciesFirst(ordered)
  }

  // ---- The search.

  /** In the middle of the search: the grey components are those on the stack, the black ones are placed. */
  ghost predicate Searching(m: ComponentMap, ordered: seq<Component>, colors: map<string, int>, stack: seq<string>) {
    && (forall n :: n in colors ==> n in m && (colors[n] == 1 || colors[n] == 2))
    && (forall n :: n in colors && colors[n] == 1 <==> n in stack)
    && (forall n :: n in colors && colors[n] == 2 <==> Placed(ordered, n, |ordered|))
    && (forall i :: 0 <= i < |ordered| ==> ordered[i].name in m && ordered[i] == m[ordered[i].name])
    && UniqueNames(ordered) && DependenciesFirst(ordered)
    && Chain(m, stack)
  }

  /** Nothing loses its colour, except that a component becomes black when it is left. */
  ghost predicate ColoursKept(colors: map<string, int>, colors': map<string, int>) {
    forall n :: n in colors ==> n in colors' && colors'[n] == colors[n]
  }

  ghost predicate AllBlack(names: seq<string>, colors: map<string, int>) {
    forall v :: v in names ==> v in colors && colors[v] == 2
  }

  lemma OneMoreBlack(names: seq<string>, i: nat, colors: map<string, int>, colors': map<string, int>)
    requires i < |names| && AllBlack(names[..i], colors) && ColoursKept(colors, colors')
    requires names[i] in colors' && colors'[names[i]] == 2
    ensures AllBlack(names[..i + 1], colors')
  {
  }

  ghost predicate AllColoured(cs: seq<Component>, colors: map<string, int>) {
    forall c :: c in cs ==> c.name in colors
  }

  lemma OneMoreColoured(cs: seq<Component>, i: nat, colors: map<string, int>, colors': map<string, int>)
    requires i < |cs| && AllColoured(cs[..i], colors) && ColoursKept(colors, colors') && cs[i].name in colors'
    ensures AllColoured(cs[..i + 1], colors')
  {
  }

  lemma Entered(m: ComponentMap, ordered: seq<Component>, colors: map<string, int>, stack: seq<string>, u: Component)
    requires Searching(m, ordered, colors, stack) && u.name in m && u == m[u.name] && u.name !in colors
    requires stack != [] ==> u.name in m[stack[|stack| - 1]].dependencies
    ensures Searching(m, ordered, colors[u.name := 1], stack + [u.name])
  {
  }

  lemma Left(m: ComponentMap, ordered: seq<Component>, colors: map<string, int>, stack: seq<string>, u: Component)
    requires Searching(m, ordered, colors, stack + [u.name]) && u.name in m && u == m[u.name] && u.name !in stack
    requires AllBlack(u.dependencies, colors)
    ensures Searching(m, ordered + [u], colors[u.name := 2], stack)
  {
    var o, c := ordered + [u], colors[u.name := 2];
    assert u.name in stack + [u.name];
    assert forall n :: n in stack + [u.name] <==> n in stack || n == u.name;
    forall n ensures Placed(o, n, |o|) <==> Placed(ordered, n, |ordered|) || n == u.name {
      PlacedMore(ordered, u, n);
    }
    forall i, v | 0 <= i < |o| && v in o[i].dependencies ensures Placed(o, v, i) {
      if i < |ordered| {
        assert Placed(ordered, v, i);
        var j :| 0 <= j < i && j < |ordered| && ordered[j].name == v;
        assert o[j].name == v;
      } else {
        assert colors[v] == 2 && Placed(ordered, v, |ordered|);
        var j :| 0 <= j < |ordered| && ordered[j].name == v;
        assert o[j].name == v;
      }
    }
    assert !Placed(ordered, u.name, |ordered|);
    forall i | 0 <= i < |stack| ensures stack[i] in m {
      assert (stack + [u.name])[i] == stack[i];
    }
    forall i, j | 0 <= i < |stack| && j == i + 1 < |stack| ensures stack[j] in m[stack[i]].dependencies {
      assert (stack + [u.name])[j] == stack[j] && (stack + [u.name])[i] == stack[i];
    }
  }

  lemma PlacedMore(ordered: seq<Component>, u: Component, n: string)
    ensures Placed(ordered + [u], n, |ordered| + 1) <==> Placed(ordered, n, |ordered|) || n == u.name
  {
    var o := ordered + [u];
    if n == u.name {
      assert o[|ordered|].name == n;
    }
    if Placed(ordered, n, |ordered|) {
      var j :| 0 <= j < |ordered| && ordered[j].name == n;
      assert o[j].name == n;
    }
  }

  /** A dependency that is grey closes a cycle. */
  lemma GreyIsCycle(m: ComponentMap, stack: seq<string>, v: string)
    requires Chain(m, stack) && stack != [] && v in stack && v in m[stack[|stack| - 1]].dependencies
    ensures Explained(m, ComponentCycle(v))
  {
    var i :| 0 <= i < |stack| && stack[i] == v;
    assert IsCycle(m, stack[i..] + [v]);
  }

  /** The colours of one sort, shared by the recursive calls. */
  class Colors {
    var colors: map<string, int>

    constructor ()
      ensures colors == map[]
    {
      colors := map[];
    }
  }

  class Service {
    const Components: seq<Component>
    var componentsMap: ComponentMap
    var componentsMapDone: bool
    var componentsOrdered: seq<Component>
    var componentsOrderedErr: Option<SortError>
    var componentsOrderedDone: bool

    ghost predicate Valid()
      reads this
    {
      && (componentsMapDone ==> componentsMap == MapOf(Components))
      && (componentsOrderedDone ==> Sorted(componentsOrdered, componentsOrderedErr))
    }

    /** A finished sort: an order and no error, or an error and no order. */
    ghost predicate Sorted(ordered: seq<Component>, err: Option<SortError>)
      reads this
    {
      && (err.None? ==> IsOrder(Components, ordered))
      && (err.Some? ==> ordered == [])
      && (err.Some? <==> HasMissing(MapOf(Components)) || HasCycle(MapOf(Components)))
      && (err.Some? ==> Explained(MapOf(Components), err.value))
    }

    constructor (components: seq<Component>)
      ensures Valid() && Components == components && !componentsOrderedDone
    {
      Components, componentsMap, componentsMapDone := components, map[], false;
      componentsOrdered, componentsOrderedErr, componentsOrderedDone := [], None, false;
    }

    method GetComponentsMap() returns (r: ComponentMap)
      requires Valid()
      modifies this`componentsMap, this`componentsMapDone
      ensures Valid() && r == MapOf(Components)
    {
      if !componentsMapDone {
        componentsMap := map[];
        var i := 0;
        while i < |Components|
          invariant 0 <= i <= |Components| && !componentsMapDone
          invariant componentsMap == MapOf(Components[..i])
        {
          MapOfMore(Components, i);
          componentsMap := componentsMap[Components[i].name := Components[i]];
          i := i + 1;
        }
        assert Components[..i] == Components;
        componentsMapDone := true;
      }
      r := componentsMap;
    }

    method DfsComponentSort(u: Component, colors: Colors, ghost stack: seq<string>) returns (err: Option<SortError>)
      requires Valid() && !componentsOrderedDone
      requires Searching(MapOf(Components), componentsOrdered, colors.colors, stack)
      requires u.name in MapOf(Components) && u == MapOf(Components)[u.name] && u.name !in colors.colors
      requires stack != [] ==> u.name in MapOf(Components)[stack[|stack| - 1]].dependencies
      modifies this`componentsMap, this`componentsMapDone, this`componentsOrdered, colors
      ensures Valid()
      ensures err.None? ==> Visited(stack, old(colors.colors), colors.colors, u.name)
      ensures err.Some? ==> Explained(MapOf(Components), err.value)
      decreases MapOf(Components).Keys - colors.colors.Keys, 0
    {
      ghost var m, inner := MapOf(Components), stack + [u.name];
      Entered(m, componentsOrdered, colors.colors, stack, u);
      colors.colors := colors.colors[u.name := 1];
      err := VisitDependencies(u, colors, inner);
      if err.Some? {
        return;
      }
      Leave(u, colors, stack);
    }

    /** All dependencies of the component have been placed, and it comes next. */
    method Leave(u: Component, colors: Colors, ghost stack: seq<string>)
      requires Valid() && !componentsOrderedDone && u.name in MapOf(Components) && u == MapOf(Components)[u.name]
      requires Searching(MapOf(Components), componentsOrdered, colors.colors, stack + [u.name])
      requires AllBlack(u.dependencies, colors.colors) && u.name !in stack
      modifies this`componentsOrdered, colors
      ensures Valid() && Searching(MapOf(Components), componentsOrdered, colors.colors, stack)
      ensures colors.colors == old(colors.colors)[u.name := 2]
    {
      Left(MapOf(Components), componentsOrdered, colors.colors, stack, u);
      componentsOrdered := componentsOrdered + [u];
      colors.colors := colors.colors[u.name := 2];
    }

    /** The component has been left, and nothing else has changed about what was coloured. */
    ghost predicate Visited(stack: seq<string>, colors: map<string, int>, colors': map<string, int>, name: string)
      reads this
    {
      && Searching(MapOf(Components), componentsOrdered, colors', stack)
      && ColoursKept(colors, colors')
      && name in colors' && colors'[name] == 2
    }

    /** The loop over the dependencies of a component. */
    method VisitDependencies(u: Component, colors: Colors, ghost inner: seq<string>) returns (err: Option<SortError>)
      requires Valid() && !componentsOrderedDone
      requires Searching(MapOf(Components), componentsOrdered, colors.colors, inner)
      requires inner != [] && inner[|inner| - 1] == u.name && u.name in MapOf(Components) && u == MapOf(Components)[u.name]
      modifies this`componentsMap, this`componentsMapDone, this`componentsOrdered, colors
      ensures Valid()
      ensures err.None? ==>
        && Searching(MapOf(Components), componentsOrdered, colors.colors, inner)
        && ColoursKept(old(colors.colors), colors.colors)
        && AllBlack(u.dependencies, colors.colors)
      ensures err.Some? ==> Explained(MapOf(Components), err.value)
      decreases MapOf(Components).Keys - colors.colors.Keys, 2
    {
      var i := 0;
      while i < |u.dependencies|
        invariant 0 <= i <= |u.dependencies| && Valid()
        invariant Searching(MapOf(Components), componentsOrdered, colors.colors, inner)
        invariant ColoursKept(old(colors.colors), colors.colors)
        invariant AllBlack(u.dependencies[..i], colors.colors)
      {
        ghost var before := colors.colors;
        err := Visit(u.dependencies[i], colors, inner);
        if err.Some? {
          return;
        }
        OneMoreBlack(u.dependencies, i, before, colors.colors);
        i := i + 1;
      }
      assert u.dependencies[..i] == u.dependencies;
      err := None;
    }

    /** One round of it. */
    method Visit(vName: string, colors: Colors, ghost inner: seq<string>) returns (err: Option<SortError>)
      requires Valid() && !componentsOrderedDone
      requires Searching(MapOf(Components), componentsOrdered, colors.colors, inner)
      requires inner != [] && vName in MapOf(Components)[inner[|inner| - 1]].dependencies
      modifies this`componentsMap, this`componentsMapDone, this`componentsOrdered, colors
      ensures Valid()
      ensures err.None? ==> Visited(inner, old(colors.colors), colors.colors, vName)
      ensures err.Some? ==> Explained(MapOf(Components), err.value)
      decreases MapOf(Components).Keys - colors.colors.Keys, 1
    {
      var components := GetComponentsMap();
      if vName !in components {
        return Some(MissingComponent(vName));
      }
      var v := components[vName];
      if v.name !in colors.colors {
        err := DfsComponentSort(v, colors, inner);
      } else if colors.colors[v.name] == 1 {
        GreyIsCycle(MapOf(Components), inner, vName);
        err := Some(ComponentCycle(vName));
      } else {
        err := None;
      }
    }

    /**
     Sorts once and keeps the result. With unique component names: a permutation of the components with each
     one after all its dependencies, or an error, exactly if a dependency is missing or there is a cycle.
     */
    method GetComponentsSortedTopologically() returns (ordered: seq<Component>, err: Option<SortError>)
      requires Valid() && UniqueNames(Components)
      modifies this
      ensures Valid() && Sorted(ordered, err)
      ensures old(componentsOrderedDone) ==> ordered == old(componentsOrdered) && err == old(componentsOrderedErr)
    {
      if !componentsOrderedDone {
        SortComponents();
        componentsOrderedDone := true;
      }
      ordered, err := componentsOrdered, componentsOrderedErr;
    }

    method SortComponents()
      requires Valid() && UniqueNames(Components) && !componentsOrderedDone
      modifies this
      ensures Valid() && !componentsOrderedDone && Sorted(componentsOrdered, componentsOrderedErr)
    {
      var colors := new Colors();
      componentsOrdered := [];
      componentsOrderedErr := VisitAll(colors);
      if componentsOrderedErr.Some? {
        componentsOrdered := [];
      } else {
        SearchedAll(Components, componentsOrdered, colors.colors);
      }
    }

    /** The outer loop. */
    method VisitAll(colors: Colors) returns (err: Option<SortError>)
      requires Valid() && UniqueNames(Components) && !componentsOrderedDone && componentsOrdered == [] && colors.colors == map[]
      modifies this`componentsMap, this`componentsMapDone, this`componentsOrdered, colors
      ensures Valid()
      ensures err.None? ==> Searching(MapOf(Components), componentsOrdered, colors.colors, []) && AllColoured(Components, colors.colors)
      ensures err.Some? ==> Explained(MapOf(Components), err.value)
    {
      var i := 0;
      while i < |Components|
        invariant 0 <= i <= |Components| && Valid()
        invariant Searching(MapOf(Components), componentsOrdered, colors.colors, [])
        invariant AllColoured(Components[..i], colors.colors)
      {
        ghost var before := colors.colors;
        err := VisitRoot(Components[i], colors);
        if err.Some? {
          return;
        }
        OneMoreColoured(Components, i, before, colors.colors);
        i := i + 1;
      }
      assert Components[..i] == Components;
      err := None;
    }

    /** One round of the outer loop. */
    method VisitRoot(c: Component, colors: Colors) returns (err: Option<SortError>)
      requires Valid() && UniqueNames(Components) && !componentsOrderedDone && c in Components
      requires Searching(MapOf(Components), componentsOrdered, colors.colors, [])
      modifies this`componentsMap, this`componentsMapDone, this`componentsOrdered, colors
      ensures Valid()
      ensures err.None? ==>
        && Searching(MapOf(Components), componentsOrdered, colors.colors, [])
        && ColoursKept(old(colors.colors), colors.colors) && c.name in colors.colors
      ensures err.Some? ==> Explained(MapOf(Components), err.value)
    {
      err := None;
      if c.name !in colors.colors {
        UniqueInMap(Components, c);
        err := DfsComponentSort(c, colors, []);
      }
    }
  }

  lemma UniqueInMap(cs: seq<Component>, c: Component)
    requires UniqueNames(cs) && c in cs
    ensures c.name in MapOf(cs) && MapOf(cs)[c.name] == c
  {
    var d := MapOf(cs)[c.name];
    var i :| 0 <= i < |cs| && cs[i] == c;
    var j :| 0 <= j < |cs| && cs[j] == d;
    assert cs[i].name == cs[j].name;
  }

  /** When the search is over, the placed components are an order, and nothing is in the way of one. */
  lemma SearchedAll(cs: seq<Component>, ordered: seq<Component>, colors: map<string, int>)
    requires UniqueNames(cs) && Searching(MapOf(cs), ordered, colors, [])
    requires AllColoured(cs, colors)
    ensures IsOrder(cs, ordered) && !HasMissing(MapOf(cs)) && !HasCycle(MapOf(cs))
  {
    forall c ensures c in ordered <==> c in cs {
      if c in cs {
        UniqueInMap(cs, c);
        assert colors[c.name] == 2 && Placed(ordered, c.name, |ordered|);
      }
    }
    UniqueIsPermutation(cs, ordered);
    OrderExcludes(MapOf(cs), ordered);
  }

  lemma {:induction false} UniqueIsPermutation(cs: seq<Component>, ordered: seq<Component>)
    requires UniqueNames(cs) && UniqueNames(ordered) && forall c :: c in ordered <==> c in cs
    ensures multiset(ordered) == multiset(cs)
  {
    forall c ensures multiset(ordered)[c] == multiset(cs)[c] {
      AtMostOnce(cs, c);
      AtMostOnce(ordered, c);
    }
  }

  lemma {:induction false} AtMostOnce(cs: seq<Component>, c: Component)
    requires UniqueNames(cs)
    ensures multiset(cs)[c] == if c in cs then 1 else 0
  {
    if cs != [] {
      var n := |cs| - 1;
      assert cs == cs[..n] + [cs[n]];
      AtMostOnce(cs[..n], c);
    }
  }

  /** With all components of the map in order, no dependency is missing and there is no cycle. */
  lemma OrderExcludes(m: ComponentMap, ordered: seq<Component>)
    requires DependenciesFirst(ordered) && UniqueNames(ordered)
    requires forall n :: n in m ==> m[n] in ordered && m[n].name == n
    requires forall i :: 0 <= i < |ordered| ==> ordered[i].name in m && m[ordered[i].name] == ordered[i]
    ensures !HasMissing(m) && !HasCycle(m)
  {
    forall n, v | n in m && v in m[n].dependencies ensures v in m {
      var i :| 0 <= i < |ordered| && ordered[i] == m[n];
      assert Placed(ordered, v, i);
    }
    forall names ensures !IsCycle(m, names) {
      if |names| >= 2 && Chain(m, names) {
        var i :| 0 <= i < |ordered| && ordered[i] == m[names[0]];
        var j := ChainGoesDown(m, ordered, names, i, |names| - 1);
      }
    }
  }

  lemma {:induction false} ChainGoesDown(m: ComponentMap, ordered: seq<Component>, names: seq<string>, i: nat, n: nat) returns (j: nat)
    requires DependenciesFirst(ordered) && Chain(m, names) && n < |names|
    requires forall k :: 0 <= k < |ordered| ==> ordered[k].name in m && m[ordered[k].name] == ordered[k]
    requires i < |ordered| && ordered[i].name == names[0]
    ensures j < |ordered| && ordered[j].name == names[n] && j <= i && (n > 0 ==> j < i)
  {
    if n == 0 {
      j := i;
    } else {
      var k := ChainGoesDown(m, ordered, names, i, n - 1);
      assert names[n - 1 + 1] in m[names[n - 1]].dependencies;
      assert Placed(ordered, names[n], k);
      j :| 0 <= j < k && ordered[j].name == names[n];
    }
  }
}
