/** Component instances as values, and the actions that change them in the actual state. */
module Instances {
  import opened Prelude
  import opened ComponentKey

  /** A nested parameter map; Go tells a nil map from an empty one. */
  datatype Value = Text(s: string) | Number(n: int) | Flag(b: bool) | Nested(m: map<string, Value>)
  datatype Params = NilParams | Params(tree: map<string, Value>) {
    predicate Empty() {
      NilParams? || |tree| == 0
    }

    predicate DeepEqual(that: Params) {
      (Empty() && that.Empty()) || this == that
    }
  }

  /** A component instance, in the desired state (from the resolver) or in the actual state (from the store). */
  datatype Instance = Instance(
    cik: ComponentInstanceKey,
    dependencyKeys: map<Key, int>,   // consumers of this instance, with the depth they reach it at
    isCode: bool,
    discovery: Params,
    codeParams: Params,
    edgesOut: set<Key>,
    error: bool,                     // conflicting definitions met while resolving
    endpointsUpToDate: bool
  )

  type StateMap = map<Key, Instance>

  function ParentKey(x: Instance): Key {
    x.cik.GetParentServiceKey().GetKey()
  }

  /** The consumers of an entry; a missing entry has none. */
  function DependencyKeys(v: Option<Instance>): map<Key, int> {
    if v.Some? then v.value.dependencyKeys else map[]
  }

  /** Entries are filed under their own keys. */
  ghost predicate WellKeyed(m: StateMap) {
    forall k :: k in m ==> m[k].cik.GetKey() == k && Plain(m[k].cik.componentName)
  }

  /** Each consumer of an instance is also a consumer of its parent service. */
  ghost predicate ParentClosed(m: StateMap) {
    forall k, d :: k in m && d in m[k].dependencyKeys ==>
      ParentKey(m[k]) in m && d in m[ParentKey(m[k])].dependencyKeys
  }
}

/** What the five actions do. */
module ComponentActions {
  import opened Prelude
  import opened ComponentKey
  import opened Instances

  datatype Action =
    | Create(key: Key)
    | Update(key: Key)
    | Delete(key: Key)
    | Attach(key: Key, dep: Key, depth: int)
    | Detach(key: Key, dep: Key)

  function Kind(a: Action): string {
    match a
    case Create(_) => "action-component-create"
    case Update(_) => "action-component-update"
    case Delete(_) => "action-component-delete"
    case Attach(_, _, _) => "action-component-dependency-attach"
    case Detach(_, _) => "action-component-dependency-detach"
  }

  /** The rest of the name: the keys the action is about. */
  function NameKeys(a: Action): string {
    match a
    case Attach(k, d, _) => k + "/" + d
    case Detach(k, d) => k + "/" + d
    case _ => a.key
  }

  /** The action's name, by which duplicates in one node are recognised. */
  function GetName(a: Action): string {
    Kind(a) + "/" + NameKeys(a)
  }

  predicate SameAction(a: Action, b: Action) {
    match (a, b)
    case (Attach(k, d, _), Attach(k', d', _)) => k == k' && d == d'
    case _ => a == b
  }

  /** Within one node, the name identifies the action up to the depth of an attachment. */
  lemma NameIdentifies(a: Action, b: Action)
    requires a.key == b.key
    ensures GetName(a) == GetName(b) <==> SameAction(a, b)
  {
    if GetName(a) == GetName(b) {
      KindHasNoSlash(a);
      KindHasNoSlash(b);
      SplitSlash(Kind(a), NameKeys(a), Kind(b), NameKeys(b));
      KindsDiffer(a, b);
      if a.Attach? || a.Detach? {
        assert NameKeys(a)[|a.key| + 1..] == a.dep;
        assert NameKeys(b)[|b.key| + 1..] == b.dep;
      }
    }
  }

  lemma KindHasNoSlash(a: Action)
    ensures '/' !in Kind(a)
  {
  }

  lemma FirstSlash(p: string, x: string)
    requires '/' !in p
    ensures var s := p + "/" + x;
      |p| < |s| && s[|p|] == '/' && (forall i :: 0 <= i < |p| ==> s[i] != '/') && s[..|p|] == p && s[|p| + 1..] == x
  {
  }

  lemma SplitSlash(p: string, x: string, q: string, y: string)
    requires '/' !in p && '/' !in q && p + "/" + x == q + "/" + y
    ensures p == q && x == y
  {
    FirstSlash(p, x);
    FirstSlash(q, y);
  }

  lemma KindsDiffer(a: Action, b: Action)
    requires Kind(a) == Kind(b)
    ensures a.Create? == b.Create? && a.Update? == b.Update? && a.Delete? == b.Delete?
    ensures a.Attach? == b.Attach? && a.Detach? == b.Detach?
  {
  }

  /** Whether the calls an action makes outside the engine succeed: policy and plugin, and the store. */
  datatype Luck = Luck(cloud: bool, store: bool)

  const GOOD := Luck(true, true)

  /**
   The effect of an action on the entry of its key in the actual state, and whether it succeeds.
   A failing action leaves the entry as it was.
   */
  function Effect(desired: StateMap, a: Action, luck: Luck, v: Option<Instance>): (Option<Instance>, bool) {
    match a
    case Create(k) =>
      if k in desired && luck.cloud && luck.store then (Some(desired[k]), true) else (v, false)
    case Update(k) =>
      if k !in desired || !luck.cloud then (v, false)
      else if desired[k].codeParams.NilParams? then (v, true)
      else if v.None? || !luck.store then (v, false)
      else (Some(v.value.(endpointsUpToDate := false, codeParams := desired[k].codeParams)), true)
    case Delete(k) =>
      if v.Some? && luck.cloud && luck.store then (None, true) else (v, false)
    case Attach(k, d, depth) =>
      if v.Some? && luck.store then (Some(v.value.(dependencyKeys := v.value.dependencyKeys[d := depth])), true)
      else (v, false)
    case Detach(k, d) =>
      if v.Some? && luck.store then (Some(v.value.(dependencyKeys := v.value.dependencyKeys - {d})), true)
      else (v, false)
  }

  /** The calls that the action has to make have succeeded, and the desired instance that it needs is there. */
  predicate Enough(desired: StateMap, a: Action, luck: Luck) {
    match a
    case Create(k) => k in desired && luck.cloud && luck.store
    case Update(k) => k in desired && luck.cloud && (luck.store || desired[k].codeParams.NilParams?)
    case Delete(_) => luck.cloud && luck.store
    case Attach(_, _, _) => luck.store
    case Detach(_, _) => luck.store
  }

  /** The action writes an entry that has to be there. */
  predicate NeedsEntry(desired: StateMap, a: Action) {
    !a.Create? && !(a.Update? && a.key in desired && desired[a.key].codeParams.NilParams?)
  }

  /** An instance after an attempt to fetch its endpoints, if it is code and they are not up to date. */
  function Refreshed(x: Instance, luck: Luck): Instance {
    if x.isCode && luck == GOOD then x.(endpointsUpToDate := true) else x
  }

  /** All instances have been refreshed but those still to do, which are as before. */
  ghost predicate RefreshedBut(m: StateMap, m': StateMap, todo: set<Key>, luck: Key -> Luck) {
    && m'.Keys == m.Keys && todo <= m.Keys && (forall k :: k in todo ==> m[k].isCode)
    && forall k :: k in m ==> m'[k] == if k in todo then m[k] else Refreshed(m[k], luck(k))
  }

  lemma OneRefreshed(m: StateMap, now: StateMap, todo: set<Key>, luck: Key -> Luck, k: Key, m': StateMap)
    requires RefreshedBut(m, now, todo, luck) && k in todo
    requires m' == if luck(k) == GOOD then now[k := now[k].(endpointsUpToDate := true)] else now
    ensures RefreshedBut(m, m', todo - {k}, luck)
  {
  }

  /** The actual state kept in memory and, written through, in the store. */
  class ActualStateUpdater {
    var store: StateMap
    var actualState: StateMap

    ghost predicate Valid()
      reads this
    {
      store == actualState && WellKeyed(actualState)
    }

    constructor (actual: StateMap)
      requires WellKeyed(actual)
      ensures Valid() && actualState == actual
    {
      store, actualState := actual, actual;
    }

    method GetComponentInstance(key: Key) returns (r: Option<Instance>)
      ensures r == Lookup(actualState, key)
    {
      r := Lookup(actualState, key);
    }

    method CreateComponentInstance(instance: Instance, saveOk: bool) returns (ok: bool)
      requires Valid() && Plain(instance.cik.componentName)
      modifies this
      ensures Valid() && ok == saveOk
      ensures actualState == if ok then old(actualState)[instance.cik.GetKey() := instance] else old(actualState)
    {
      ok := saveOk;
      if !ok {
        return;
      }
      store := store[instance.cik.GetKey() := instance];
      actualState := actualState[instance.cik.GetKey() := instance];
    }

    /** Loads the entry from the store, changes it, and writes it to the store and to memory. */
    method UpdateComponentInstance(key: Key, makeChanges: Instance -> Instance, saveOk: bool) returns (ok: bool)
      requires Valid() && forall x :: makeChanges(x).cik == x.cik
      modifies this
      ensures Valid() && ok == (key in old(actualState) && saveOk)
      ensures actualState == if ok then old(actualState)[key := makeChanges(old(actualState)[key])] else old(actualState)
    {
      if key !in store {
        return false;
      }
      var instance := makeChanges(store[key]);
      ok := saveOk;
      if !ok {
        return;
      }
      store := store[instance.cik.GetKey() := instance];
      actualState := actualState[instance.cik.GetKey() := instance];
    }

    method DeleteComponentInstance(key: Key, deleteOk: bool) returns (ok: bool)
      requires Valid()
      modifies this
      ensures Valid() && ok == deleteOk
      ensures actualState == if ok then old(actualState) - {key} else old(actualState)
    {
      ok := deleteOk;
      if !ok {
        return;
      }
      store := store - {key};
      actualState := actualState - {key};
    }

    /** The Apply method of the action that fetches the endpoints of a code instance. */
    method ApplyEndpoints(key: Key, luck: Luck) returns (ok: bool)
      requires Valid()
      modifies this
      ensures Valid() && ok == (key in old(actualState) && luck == GOOD)
      ensures actualState == if ok then old(actualState)[key := old(actualState)[key].(endpointsUpToDate := true)] else old(actualState)
    {
      var instance := GetComponentInstance(key);
      if instance.None? || !luck.cloud {
        return false;
      }
      ok := UpdateComponentInstance(instance.value.cik.GetKey(), (x: Instance) => x.(endpointsUpToDate := true), luck.store);
    }

    /** Fetches the endpoints of all code instances that have none that are up to date; what fails is left for the next time. */
    method RefreshEndpoints(luck: Key -> Luck)
      requires Valid()
      modifies this
      ensures Valid() && actualState.Keys == old(actualState).Keys
      ensures forall k :: k in actualState ==>
        actualState[k] == Refreshed(old(actualState)[k], luck(k))
      ensures forall k :: k in actualState && (!old(actualState)[k].isCode || luck(k) != GOOD) ==> actualState[k] == old(actualState)[k]
    {
      var todo := set k | k in actualState && actualState[k].isCode && !actualState[k].endpointsUpToDate;
      ghost var before := actualState;
      while todo != {}
        invariant Valid() && RefreshedBut(before, actualState, todo, luck)
      {
        var k :| k in todo;
        ghost var now := actualState;
        var ok := ApplyEndpoints(k, luck(k));
        OneRefreshed(before, now, todo, luck, k, actualState);
        todo := todo - {k};
      }
    }

    /**
     The Apply methods of the five actions: exactly their effect on the entry of their own key. They succeed if the
     calls they make do, unless the entry that they change is missing.
     */
    method Apply(a: Action, desired: StateMap, luck: Luck) returns (ok: bool)
      requires Valid() && WellKeyed(desired)
      modifies this
      ensures Valid()
      ensures var (v, good) := Effect(desired, a, luck, Lookup(old(actualState), a.key));
        ok == good && actualState == Store(old(actualState), a.key, v)
      ensures ok <==> Enough(desired, a, luck) && (NeedsEntry(desired, a) ==> a.key in old(actualState))
    {
      match a
      case Create(k) =>
        if k !in desired || !luck.cloud {
          return false;
        }
        ok := CreateComponentInstance(desired[k], luck.store);
      case Update(k) =>
        if k !in desired || !luck.cloud {
          return false;
        }
        if !desired[k].codeParams.NilParams? {
          var params := desired[k].codeParams;
          ok := UpdateComponentInstance(k, (x: Instance) => x.(endpointsUpToDate := false, codeParams := params), luck.store);
        } else {
          ok := true;
        }
      case Delete(k) =>
        var instance := GetComponentInstance(k);
        if instance.None? || !luck.cloud {
          return false;
        }
        ok := DeleteComponentInstance(instance.value.cik.GetKey(), luck.store);
      case Attach(k, d, depth) =>
        ok := UpdateComponentInstance(k, (x: Instance) => x.(dependencyKeys := x.dependencyKeys[d := depth]), luck.store);
      case Detach(k, d) =>
        ok := UpdateComponentInstance(k, (x: Instance) => x.(dependencyKeys := x.dependencyKeys - {d}), luck.store);
    }
  }
}
