/** Resolution data: component instances and the map that holds them, updated and merged in place. */
module Resolution {
  import opened Prelude
  import opened ComponentKey
  import opened Instances

  // ---- What the operations do, on values.

  function NewInstance(cik: ComponentInstanceKey): Instance {
    Instance(cik, map[], false, Params(map[]), Params(map[]), {}, false, false)
  }

  /** The instance filed under the key, or a new one. */
  function EntryOf(m: StateMap, cik: ComponentInstanceKey): Instance {
    if cik.GetKey() in m then m[cik.GetKey()] else NewInstance(cik)
  }

  /** Recording parameters over existing ones: None on a conflict. Empty parameters are overwritten. */
  function AddParams(existing: Params, added: Params): Option<Params> {
    if existing.Empty() then Some(added)
    else if !existing.DeepEqual(added) then None
    else Some(existing)
  }

  function WithDependency(x: Instance, d: Key, depth: int): Instance {
    x.(dependencyKeys := x.dependencyKeys[d := depth])
  }

  function WithCodeParams(x: Instance, p: Params): Instance {
    match AddParams(x.codeParams, p)
    case Some(codeParams) => x.(codeParams := codeParams)
    case None => x
  }

  function WithCode(x: Instance, p: Params): Instance {
    WithCodeParams(x.(isCode := true), p)
  }

  function WithDiscoveryParams(x: Instance, p: Params): Instance {
    match AddParams(x.discovery, p)
    case Some(discovery) => x.(discovery := discovery)
    case None => x
  }

  function WithEdgeOut(x: Instance, dst: Key): Instance {
    x.(edgesOut := x.edgesOut + {dst})
  }

  function EdgeStored(m: StateMap, src: Option<ComponentInstanceKey>, dst: ComponentInstanceKey): StateMap {
    if src.None? then m else m[src.value.GetKey() := WithEdgeOut(EntryOf(m, src.value), dst.GetKey())]
  }

  function LabelsRecorded(m: StateMap, cik: ComponentInstanceKey): StateMap {
    m[cik.GetKey() := EntryOf(m, cik)]
  }

  function ResolvedRecorded(m: StateMap, cik: ComponentInstanceKey, d: Key, depth: int): StateMap {
    m[cik.GetKey() := WithDependency(EntryOf(m, cik), d, depth)]
  }

  function DiscoveryRecorded(m: StateMap, cik: ComponentInstanceKey, p: Params): StateMap {
    m[cik.GetKey() := WithDiscoveryParams(EntryOf(m, cik), p)]
  }

  /** The instance is marked as code even when the parameters are refused. */
  function CodeRecorded(m: StateMap, cik: ComponentInstanceKey, p: Params): StateMap {
    m[cik.GetKey() := WithCode(EntryOf(m, cik), p)]
  }

  function AppendInstance(x: Instance, y: Instance): Instance {
    var x1 := x.(dependencyKeys := x.dependencyKeys + y.dependencyKeys);
    if x.isCode != y.isCode then x1.(error := true)
    else
      var discovery := AddParams(x.discovery, y.discovery);
      if discovery.None? then x1.(error := true)
      else
        var x2 := x1.(discovery := discovery.value);
        var codeParams := AddParams(x.codeParams, y.codeParams);
        if codeParams.None? then x2.(error := true)
        else x2.(codeParams := codeParams.value, edgesOut := x.edgesOut + y.edgesOut)
  }

  /** The entry for a key after merging n into m. */
  function MergedEntry(v: Option<Instance>, w: Option<Instance>): Option<Instance> {
    if v.None? then w else if w.None? then v else Some(AppendInstance(v.value, w.value))
  }

  function Merged(m: StateMap, n: StateMap): StateMap {
    map k | k in m.Keys + n.Keys :: MergedEntry(Lookup(m, k), Lookup(n, k)).value
  }

  /** Merging n into m, done for some of its keys. */
  ghost function MergedAt(m: StateMap, n: StateMap, done: set<Key>): StateMap
    requires done <= n.Keys
  {
    map k | k in m.Keys + done :: if k in done then MergedEntry(Lookup(m, k), Lookup(n, k)).value else m[k]
  }

  lemma MergedStep(m: StateMap, n: StateMap, todo: set<Key>, k: Key)
    requires todo <= n.Keys && k in todo
    ensures var v := MergedAt(m, n, n.Keys - todo);
      MergedAt(m, n, n.Keys - (todo - {k})) == v[k := MergedEntry(Lookup(v, k), Some(n[k])).value]
  {
  }

  lemma MergedStart(m: StateMap, n: StateMap, todo: set<Key>)
    requires todo == n.Keys
    ensures MergedAt(m, n, n.Keys - todo) == m
  {
  }

  lemma MergedDone(m: StateMap, n: StateMap, todo: set<Key>)
    requires todo == {}
    ensures MergedAt(m, n, n.Keys - todo) == Merged(m, n)
  {
  }

  /** What resolving a dependency comes down to. The key is empty if there is none. */
  datatype DependencyResolution = DependencyResolution(resolved: bool, componentInstanceKey: Key)

  /** An instance that the dependency has resolved to directly. */
  predicate IsRootOf(m: StateMap, k: Key, d: Key) {
    k in m && d in m[k].dependencyKeys && m[k].dependencyKeys[d] == 0 && m[k].cik.IsService()
  }

  ghost predicate HasErrors(m: StateMap, d: Key) {
    exists k :: k in m && d in m[k].dependencyKeys && m[k].error
  }

  lemma KeyNotEmpty(cik: ComponentInstanceKey)
    ensures |cik.GetKey()| > 0
  {
  }

  lemma OneChanged(m0: StateMap, m: StateMap, m': StateMap, k: Key)
    requires k in m && m == m0[k := m[k]]
    requires m'.Keys == m.Keys && forall i :: i in m && i != k ==> m'[i] == m[i]
    ensures m' == m0[k := m'[k]]
  {
  }

  // ---- The operations.

  class ComponentInstance {
    const Key: ComponentInstanceKey
    ghost const Id: Key
    var Error: bool
    var DependencyKeys: map<Key, int>
    var IsCode: bool
    var CalculatedDiscovery: Params
    var CalculatedCodeParams: Params
    var EdgesOut: set<Key>
    var EndpointsUpToDate: bool

    ghost function View(): Instance
      reads this
    {
      Instance(Key, DependencyKeys, IsCode, CalculatedDiscovery, CalculatedCodeParams, EdgesOut, Error, EndpointsUpToDate)
    }

    /** The key string, by which the instance is filed. */
    ghost predicate Identified() {
      Id == Key.GetKey()
    }

    constructor (cik: ComponentInstanceKey)
      ensures Key == cik && Id == cik.GetKey() && Identified() && View() == NewInstance(cik)
    {
      Key, Id, Error, DependencyKeys, IsCode := cik, cik.GetKey(), false, map[], false;
      CalculatedDiscovery, CalculatedCodeParams, EdgesOut, EndpointsUpToDate := Params(map[]), Params(map[]), {}, false;
    }

    method AddDependency(dependencyKey: Key, depth: int)
      modifies this`DependencyKeys
      ensures View() == WithDependency(old(View()), dependencyKey, depth)
    {
      DependencyKeys := DependencyKeys[dependencyKey := depth];
    }

    method AddCodeParams(codeParams: Params) returns (ok: bool)
      modifies this`CalculatedCodeParams
      ensures ok == AddParams(old(View()).codeParams, codeParams).Some?
      ensures View() == WithCodeParams(old(View()), codeParams)
    {
      if CalculatedCodeParams.Empty() {
        CalculatedCodeParams := codeParams;
      } else if !CalculatedCodeParams.DeepEqual(codeParams) {
        return false;
      }
      ok := true;
    }

    method AddDiscoveryParams(discoveryParams: Params) returns (ok: bool)
      modifies this`CalculatedDiscovery
      ensures ok == AddParams(old(View()).discovery, discoveryParams).Some?
      ensures View() == WithDiscoveryParams(old(View()), discoveryParams)
    {
      if CalculatedDiscovery.Empty() {
        CalculatedDiscovery := discoveryParams;
      } else if !CalculatedDiscovery.DeepEqual(discoveryParams) {
        return false;
      }
      ok := true;
    }

    method AddEdgeOut(dstKey: Key)
      modifies this`EdgesOut
      ensures View() == WithEdgeOut(old(View()), dstKey)
    {
      EdgesOut := EdgesOut + {dstKey};
    }

    method RecordCode(codeParams: Params) returns (ok: bool)
      modifies this`IsCode, this`CalculatedCodeParams
      ensures ok == AddParams(old(View()).codeParams, codeParams).Some?
      ensures View() == WithCode(old(View()), codeParams)
    {
      IsCode := true;
      ok := AddCodeParams(codeParams);
    }

    /** Go walks the two maps of ops in any order; the entries land in distinct places. */
    method AppendData(ops: ComponentInstance)
      requires ops != this
      modifies this
      ensures View() == AppendInstance(old(View()), ops.View())
    {
      var todo := ops.DependencyKeys.Keys;
      while todo != {}
        invariant todo <= ops.DependencyKeys.Keys
        invariant View() == old(View()).(dependencyKeys := DependencyKeys)
        invariant DependencyKeys.Keys == old(DependencyKeys).Keys + (ops.DependencyKeys.Keys - todo)
        invariant forall d :: d in DependencyKeys ==>
          DependencyKeys[d] == if d in ops.DependencyKeys && d !in todo then ops.DependencyKeys[d] else old(DependencyKeys)[d]
      {
        var dependencyKey :| dependencyKey in todo;
        todo := todo - {dependencyKey};
        AddDependency(dependencyKey, ops.DependencyKeys[dependencyKey]);
      }
      assert DependencyKeys == old(DependencyKeys) + ops.DependencyKeys;
      if IsCode != ops.IsCode {
        Error := true;
        return;
      }
      var ok := AddDiscoveryParams(ops.CalculatedDiscovery);
      if !ok {
        Error := true;
        return;
      }
      ok := AddCodeParams(ops.CalculatedCodeParams);
      if !ok {
        Error := true;
        return;
      }
      EdgesOut := EdgesOut + ops.EdgesOut;
    }
  }

  class PolicyResolution {
    var ComponentInstanceMap: map<Key, ComponentInstance>
    ghost var Owned: set<ComponentInstance>

    /** Each instance is filed under its own key. */
    ghost predicate Valid()
      reads this
    {
      && (forall k :: k in ComponentInstanceMap ==> ComponentInstanceMap[k].Id == k && ComponentInstanceMap[k] in Owned)
      && (forall k {:trigger ComponentInstanceMap[k].Identified()} :: k in ComponentInstanceMap ==> ComponentInstanceMap[k].Identified())
    }

    ghost function View(): StateMap
      requires Valid()
      reads this, Owned
    {
      map k | k in ComponentInstanceMap :: ComponentInstanceMap[k].View()
    }

    constructor ()
      ensures Valid() && View() == map[] && Owned == {}
    {
      ComponentInstanceMap, Owned := map[], {};
    }

    method GetComponentInstanceEntry(cik: ComponentInstanceKey) returns (instance: ComponentInstance)
      requires Valid()
      modifies this
      ensures Valid() && cik.GetKey() in ComponentInstanceMap && instance == ComponentInstanceMap[cik.GetKey()]
      ensures instance in Owned && fresh(Owned - old(Owned))
      ensures instance.View() == EntryOf(old(View()), cik)
      ensures View() == old(View())[cik.GetKey() := instance.View()]
    {
      var key := cik.GetKey();
      if key !in ComponentInstanceMap {
        var added := new ComponentInstance(cik);
        ComponentInstanceMap, Owned := ComponentInstanceMap[key := added], Owned + {added};
      }
      instance := ComponentInstanceMap[key];
    }

    method RecordResolved(cik: ComponentInstanceKey, dependencyKey: Key, depth: int)
      requires Valid()
      modifies this, Owned
      ensures Valid() && fresh(Owned - old(Owned))
      ensures View() == ResolvedRecorded(old(View()), cik, dependencyKey, depth)
    {
      ghost var m0 := View();
      var instance := GetComponentInstanceEntry(cik);
      ghost var m := View();
      instance.AddDependency(dependencyKey, depth);
      OneChanged(m0, m, View(), cik.GetKey());
    }

    /** The instance is marked as code even when the parameters are refused. */
    method RecordCodeParams(cik: ComponentInstanceKey, codeParams: Params) returns (ok: bool)
      requires Valid()
      modifies this, Owned
      ensures Valid() && fresh(Owned - old(Owned))
      ensures ok == AddParams(EntryOf(old(View()), cik).codeParams, codeParams).Some?
      ensures View() == CodeRecorded(old(View()), cik, codeParams)
    {
      ghost var m0, x := View(), EntryOf(View(), cik);
      var instance := GetComponentInstanceEntry(cik);
      ghost var m := View();
      assert fresh(Owned - old(Owned)) && instance.View() == x;
      ok := instance.RecordCode(codeParams);
      OneChanged(m0, m, View(), cik.GetKey());
    }

    method RecordDiscoveryParams(cik: ComponentInstanceKey, discoveryParams: Params) returns (ok: bool)
      requires Valid()
      modifies this, Owned
      ensures Valid() && fresh(Owned - old(Owned))
      ensures ok == AddParams(EntryOf(old(View()), cik).discovery, discoveryParams).Some?
      ensures View() == DiscoveryRecorded(old(View()), cik, discoveryParams)
    {
      ghost var m0 := View();
      var instance := GetComponentInstanceEntry(cik);
      ghost var m := View();
      ok := instance.AddDiscoveryParams(discoveryParams);
      OneChanged(m0, m, View(), cik.GetKey());
    }

    /** The labels themselves are not modelled; the entry comes into being. */
    method RecordLabels(cik: ComponentInstanceKey)
      requires Valid()
      modifies this, Owned
      ensures Valid() && fresh(Owned - old(Owned))
      ensures View() == LabelsRecorded(old(View()), cik)
    {
      var instance := GetComponentInstanceEntry(cik);
    }

    method StoreEdge(src: Option<ComponentInstanceKey>, dst: ComponentInstanceKey)
      requires Valid()
      modifies this, Owned
      ensures Valid() && fresh(Owned - old(Owned))
      ensures View() == EdgeStored(old(View()), src, dst)
    {
      if src.None? {
        return;
      }
      ghost var m0 := View();
      var instance := GetComponentInstanceEntry(src.value);
      ghost var m := View();
      instance.AddEdgeOut(dst.GetKey());
      OneChanged(m0, m, View(), src.value.GetKey());
    }

    method Adopt(key: Key, instance: ComponentInstance)
      requires Valid() && instance.Id == key && instance.Identified() && key !in ComponentInstanceMap
      modifies this
      ensures Valid() && ComponentInstanceMap == old(ComponentInstanceMap)[key := instance] && Owned == old(Owned) + {instance}
      ensures View() == old(View())[key := instance.View()]
    {
      ComponentInstanceMap, Owned := ComponentInstanceMap[key := instance], Owned + {instance};
    }

    /** One round of the loop of AppendData. An instance that is new here becomes shared with its other owner. */
    method AppendEntry(key: Key, instance: ComponentInstance)
      requires Valid() && instance.Id == key && instance.Identified() && instance !in Owned
      modifies this, if key in ComponentInstanceMap then {ComponentInstanceMap[key]} else {}
      ensures Valid()
      ensures ComponentInstanceMap == if key in old(ComponentInstanceMap) then old(ComponentInstanceMap) else old(ComponentInstanceMap)[key := instance]
      ensures Owned == if key in old(ComponentInstanceMap) then old(Owned) else old(Owned) + {instance}
      ensures View() == old(View())[key := MergedEntry(Lookup(old(View()), key), Some(instance.View())).value]
    {
      ghost var m := View();
      if key !in ComponentInstanceMap {
        Adopt(key, instance);
      } else {
        var own := ComponentInstanceMap[key];
        own.AppendData(instance);
        OneChanged(m, m, View(), key);
      }
    }

    /** In the middle of AppendData: the entries of ops outside todo have been merged, into instances of our own or of ops. */
    ghost predicate Merging(ops: PolicyResolution, own: set<ComponentInstance>, todo: set<Key>, m: StateMap, n: StateMap)
      reads this, Owned, ops, ops.Owned
    {
      && Valid() && ops != this && ops.Valid() && todo <= n.Keys && ops.ComponentInstanceMap.Keys == n.Keys
      && (forall k :: k in n ==> ops.ComponentInstanceMap[k].View() == n[k])
      && own !! ops.Owned
      && (forall k :: k in todo ==> ops.ComponentInstanceMap[k] !in Owned)
      && (forall k :: k in todo && k in ComponentInstanceMap ==> ComponentInstanceMap[k] in own)
      && View() == MergedAt(m, n, n.Keys - todo)
    }

    method AppendNext(ops: PolicyResolution, key: Key, ghost own: set<ComponentInstance>, ghost todo: set<Key>,
                      ghost m: StateMap, ghost n: StateMap)
      requires Merging(ops, own, todo, m, n) && key in todo
      modifies this, own
      ensures Merging(ops, own, todo - {key}, m, n) && Owned <= old(Owned) + ops.Owned
    {
      MergedStep(m, n, todo, key);
      assert ops.ComponentInstanceMap[key].Identified();
      AppendEntry(key, ops.ComponentInstanceMap[key]);
    }

    method AppendData(ops: PolicyResolution)
      requires ops != this && Valid() && ops.Valid() && Owned !! ops.Owned
      modifies this, Owned
      ensures Valid() && View() == Merged(old(View()), old(ops.View())) && Owned <= old(Owned) + ops.Owned
    {
      ghost var m, n, own := View(), ops.View(), Owned;
      var todo := ops.ComponentInstanceMap.Keys;
      MergedStart(m, n, todo);
      while todo != {}
        invariant Merging(ops, own, todo, m, n) && Owned <= own + ops.Owned
      {
        var key :| key in todo;
        AppendNext(ops, key, own, todo, m, n);
        todo := todo - {key};
      }
      MergedDone(m, n, todo);
    }

    method GetDependencyResolution(dKey: Key) returns (r: DependencyResolution)
      requires Valid()
      ensures r.resolved <==> !HasErrors(View(), dKey) && exists k :: IsRootOf(View(), k, dKey)
      ensures if r.componentInstanceKey == "" then forall k :: !IsRootOf(View(), k, dKey)
              else IsRootOf(View(), r.componentInstanceKey, dKey)
    {
      var dError, dComponentKey := false, "";
      var todo := ComponentInstanceMap.Keys;
      while todo != {}
        invariant todo <= ComponentInstanceMap.Keys
        invariant dError <==> exists k :: k in View() && k !in todo && dKey in View()[k].dependencyKeys && View()[k].error
        invariant if dComponentKey == "" then forall k :: k !in todo ==> !IsRootOf(View(), k, dKey)
                  else IsRootOf(View(), dComponentKey, dKey)
      {
        var key :| key in todo;
        todo := todo - {key};
        var instance := ComponentInstanceMap[key];
        assert View()[key] == instance.View();
        if dKey in instance.DependencyKeys {
          if !dError {
            dError := instance.Error;
          }
          if instance.DependencyKeys[dKey] == 0 && instance.Key.IsService() {
            assert ComponentInstanceMap[key].Identified();
            KeyNotEmpty(instance.Key);
            dComponentKey := instance.Key.GetKey();
          }
        }
      }
      r := DependencyResolution(!dError && |dComponentKey| > 0, dComponentKey);
    }
  }
}
