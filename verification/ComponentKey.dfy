/**
 Keys of component instances: seven fields joined by '#'.
 */
module ComponentKey {

  const SEPARATOR := "#"
  const ROOT := "root"
  const UNKNOWN := "unknown"

  function Join(parts: seq<string>): string {
    if parts == [] then ""
    else if |parts| == 1 then parts[0]
    else parts[0] + SEPARATOR + Join(parts[1..])
  }

  datatype ComponentInstanceKey = ComponentInstanceKey(
    clusterNamespace: string,
    clusterName: string,
    targetSuffix: string,
    namespace: string,
    contractName: string,
    contextName: string,
    keysResolved: string,
    contextNameWithKeys: string,
    serviceName: string,
    componentName: string
  ) {
    /** The key of the service instance that a component instance belongs to. The copy drops serviceName. */
    function GetParentServiceKey(): ComponentInstanceKey {
      if componentName == ROOT then this else this.(serviceName := "", componentName := ROOT)
    }

    function GetKey(): string {
      Join([clusterNamespace, clusterName, targetSuffix, namespace, contractName, contextNameWithKeys, componentName])
    }

    predicate IsService() {
      componentName == ROOT
    }
  }

  /** `component` is empty for the key of the service itself, and never the empty string otherwise. */
  function NewComponentInstanceKey(clusterNamespace: string, clusterName: string, targetSuffix: string,
                                   namespace: string, contractName: string, contextName: string,
                                   allocationKeys: seq<string>, serviceName: string, component: string): ComponentInstanceKey {
    var keys := Join(allocationKeys);
    ComponentInstanceKey(
      clusterNamespace, clusterName, if targetSuffix == "" then UNKNOWN else targetSuffix,
      namespace, contractName, contextName, keys,
      if keys == "" then contextName else Join([contextName, keys]),
      serviceName, if component == "" then ROOT else component)
  }

  predicate Plain(s: string) {
    '#' !in s
  }

  lemma FirstSeparator(a: string, x: string)
    requires Plain(a)
    ensures var s := a + SEPARATOR + x;
      |a| < |s| && s[|a|] == '#' && (forall i :: 0 <= i < |a| ==> s[i] != '#') && s[..|a|] == a && s[|a| + 1..] == x
  {
  }

  lemma LastSeparator(a: string, x: string)
    requires Plain(x)
    ensures var s := a + SEPARATOR + x;
      |a| < |s| && s[|a|] == '#' && (forall i :: |a| < i < |s| ==> s[i] != '#') && s[..|a|] == a && s[|a| + 1..] == x
  {
  }

  /** Splitting at the first '#' undoes joining with a plain first part. */
  lemma FirstPart(a: string, x: string, b: string, y: string)
    requires Plain(a) && Plain(b) && a + SEPARATOR + x == b + SEPARATOR + y
    ensures a == b && x == y
  {
    FirstSeparator(a, x);
    FirstSeparator(b, y);
  }

  /** Splitting at the last '#' undoes joining with a plain last part. */
  lemma LastPart(a: string, x: string, b: string, y: string)
    requires Plain(x) && Plain(y) && a + SEPARATOR + x == b + SEPARATOR + y
    ensures a == b && x == y
  {
    LastSeparator(a, x);
    LastSeparator(b, y);
  }

  lemma JoinCons(h: string, t: seq<string>)
    requires t != []
    ensures Join([h] + t) == h + SEPARATOR + Join(t)
  {
  }

  /** The key, part by part from the front. */
  lemma KeyShape(k: ComponentInstanceKey)
    ensures k.GetKey() ==
      k.clusterNamespace + SEPARATOR + (k.clusterName + SEPARATOR + (k.targetSuffix + SEPARATOR + (k.namespace + SEPARATOR
      + (k.contractName + SEPARATOR + (k.contextNameWithKeys + SEPARATOR + k.componentName)))))
  {
    var p6 := [k.componentName];
    var p5 := [k.contextNameWithKeys] + p6;
    var p4 := [k.contractName] + p5;
    var p3 := [k.namespace] + p4;
    var p2 := [k.targetSuffix] + p3;
    var p1 := [k.clusterName] + p2;
    assert [k.clusterNamespace] + p1 == [k.clusterNamespace, k.clusterName, k.targetSuffix, k.namespace,
                                         k.contractName, k.contextNameWithKeys, k.componentName];
    JoinCons(k.clusterNamespace, p1);
    JoinCons(k.clusterName, p2);
    JoinCons(k.targetSuffix, p3);
    JoinCons(k.namespace, p4);
    JoinCons(k.contractName, p5);
    JoinCons(k.contextNameWithKeys, p6);
  }

  /** The key without its last part. */
  function KeyPrefix(k: ComponentInstanceKey): string {
    k.clusterNamespace + SEPARATOR + (k.clusterName + SEPARATOR + (k.targetSuffix + SEPARATOR + (k.namespace + SEPARATOR
    + (k.contractName + SEPARATOR + k.contextNameWithKeys))))
  }

  lemma KeySplits(k: ComponentInstanceKey)
    ensures k.GetKey() == KeyPrefix(k) + SEPARATOR + k.componentName
  {
    KeyShape(k);
  }

  /** The parent service of an instance is determined by its key string, if component names are plain. */
  lemma ParentDetermined(k: ComponentInstanceKey, k': ComponentInstanceKey)
    requires k.GetKey() == k'.GetKey() && Plain(k.componentName) && Plain(k'.componentName)
    ensures k.componentName == k'.componentName
    ensures k.GetParentServiceKey().GetKey() == k'.GetParentServiceKey().GetKey()
  {
    KeySplits(k);
    KeySplits(k');
    LastPart(KeyPrefix(k), k.componentName, KeyPrefix(k'), k'.componentName);
    KeySplits(k.GetParentServiceKey());
    KeySplits(k'.GetParentServiceKey());
    assert KeyPrefix(k.GetParentServiceKey()) == KeyPrefix(k);
    assert KeyPrefix(k'.GetParentServiceKey()) == KeyPrefix(k');
  }

  /** Every field is free of '#', except the resolved allocation keys. */
  predicate PlainFields(k: ComponentInstanceKey) {
    && Plain(k.clusterNamespace) && Plain(k.clusterName) && Plain(k.targetSuffix) && Plain(k.namespace)
    && Plain(k.contractName) && Plain(k.contextName) && Plain(k.componentName)
    && k.contextNameWithKeys == if k.keysResolved == "" then k.contextName else k.contextName + SEPARATOR + k.keysResolved
  }

  /** GetKey is invertible: equal strings come from keys that agree on every field that is part of the string. */
  lemma KeyInjective(k: ComponentInstanceKey, k': ComponentInstanceKey)
    requires PlainFields(k) && PlainFields(k') && k.GetKey() == k'.GetKey()
    ensures k' == k.(serviceName := k'.serviceName)
  {
    ParentDetermined(k, k');
    KeyShape(k);
    KeyShape(k');
    var r5 := k.contextNameWithKeys + SEPARATOR + k.componentName;
    var s5 := k'.contextNameWithKeys + SEPARATOR + k'.componentName;
    var r4, s4 := k.contractName + SEPARATOR + r5, k'.contractName + SEPARATOR + s5;
    var r3, s3 := k.namespace + SEPARATOR + r4, k'.namespace + SEPARATOR + s4;
    var r2, s2 := k.targetSuffix + SEPARATOR + r3, k'.targetSuffix + SEPARATOR + s3;
    var r1, s1 := k.clusterName + SEPARATOR + r2, k'.clusterName + SEPARATOR + s2;
    FirstPart(k.clusterNamespace, r1, k'.clusterNamespace, s1);
    FirstPart(k.clusterName, r2, k'.clusterName, s2);
    FirstPart(k.targetSuffix, r3, k'.targetSuffix, s3);
    FirstPart(k.namespace, r4, k'.namespace, s4);
    FirstPart(k.contractName, r5, k'.contractName, s5);
    LastPart(k.contextNameWithKeys, k.componentName, k'.contextNameWithKeys, k'.componentName);
    SameContext(k, k');
  }

  lemma SameContext(k: ComponentInstanceKey, k': ComponentInstanceKey)
    requires PlainFields(k) && PlainFields(k') && k.contextNameWithKeys == k'.contextNameWithKeys
    ensures k.contextName == k'.contextName && k.keysResolved == k'.keysResolved
  {
    if k.keysResolved != "" {
      FirstSeparator(k.contextName, k.keysResolved);
    }
    if k'.keysResolved != "" {
      FirstSeparator(k'.contextName, k'.keysResolved);
    }
  }

  /** Keys built from the same inputs: the parent of a component key is the service key. */
  lemma ParentIsServiceKey(cns: string, cn: string, suffix: string, ns: string, contract: string, context: string,
                           keys: seq<string>, service: string, component: string)
    ensures NewComponentInstanceKey(cns, cn, suffix, ns, contract, context, keys, service, component).GetParentServiceKey().GetKey()
         == NewComponentInstanceKey(cns, cn, suffix, ns, contract, context, keys, service, "").GetKey()
  {
  }

  // ---- The list of allocation keys.

  /** The parts of a string between its separators. */
  function Split(s: string): (parts: seq<string>)
    ensures parts != []
  {
    if Plain(s) then [s]
    else
      var i := FirstIndex(s);
      [s[..i]] + Split(s[i + 1..])
  }

  function FirstIndex(s: string): (i: nat)
    requires !Plain(s)
    ensures i < |s| && s[i] == '#' && Plain(s[..i])
  {
    if s[0] == '#' then 0
    else
      assert s == [s[0]] + s[1..];
      var i := FirstIndex(s[1..]);
      assert s[..i + 1] == [s[0]] + s[1..][..i];
      i + 1
  }

  predicate AllPlain(parts: seq<string>) {
    forall p :: p in parts ==> Plain(p)
  }

  lemma {:induction false} JoinUndoesSplit(s: string)
    ensures Join(Split(s)) == s && AllPlain(Split(s))
  {
    if !Plain(s) {
      var i := FirstIndex(s);
      JoinUndoesSplit(s[i + 1..]);
      JoinedAgain(s, i, Split(s[i + 1..]));
    }
  }

  lemma JoinedAgain(s: string, i: nat, rest: seq<string>)
    requires i < |s| && s[i] == '#' && Plain(s[..i]) && rest != [] && Join(rest) == s[i + 1..] && AllPlain(rest)
    ensures Join([s[..i]] + rest) == s && AllPlain([s[..i]] + rest)
  {
    JoinCons(s[..i], rest);
    assert s == s[..i] + SEPARATOR + s[i + 1..];
  }

  /** A non-empty list can be read back from its parts joined if and only if none of the parts contains the separator. */
  lemma {:induction false} SplitUndoesJoinIff(parts: seq<string>)
    requires parts != []
    ensures Split(Join(parts)) == parts <==> AllPlain(parts)
  {
    JoinUndoesSplit(Join(parts));
    if AllPlain(parts) {
      SplitUndoesJoin(parts);
    }
  }

  lemma {:induction false} SplitUndoesJoin(parts: seq<string>)
    requires parts != [] && AllPlain(parts)
    ensures Split(Join(parts)) == parts
  {
    var head, tail := parts[0], parts[1..];
    assert Plain(head) && parts == [head] + tail;
    if tail != [] {
      var s := Join(parts);
      SplitUndoesJoin(tail);
      JoinCons(head, tail);
      FirstSeparator(head, Join(tail));
      assert FirstIndex(s) == |head|;
    }
  }

  // ---- The key string in terms of what it is built from.

  /** What a key is built from. */
  datatype Inputs = Inputs(
    clusterNamespace: string,
    clusterName: string,
    targetSuffix: string,
    namespace: string,
    contract: string,
    context: string,
    allocationKeys: seq<string>,
    service: string,
    component: string
  ) {
    function Key(): string {
      NewComponentInstanceKey(clusterNamespace, clusterName, targetSuffix, namespace, contract, context, allocationKeys, service, component).GetKey()
    }

    predicate Plain() {
      PlainInputs(clusterNamespace, clusterName, targetSuffix, namespace, contract, context, component)
    }
  }

  /** An empty suffix stands for an unknown one, and no component for the service itself. */
  predicate SameUpTo(s: string, t: string, default: string) {
    s == t || (s in ["", default] && t in ["", default])
  }

  /**
   Two instances have the same key string exactly if all of cluster namespace and name, target suffix,
   namespace, contract, context, component and joined allocation keys are the same; the service does not count.
   */
  lemma SameKeyIffSameInputs(x: Inputs, y: Inputs)
    requires x.Plain() && y.Plain()
    ensures x.Key() == y.Key() <==>
      && x.clusterNamespace == y.clusterNamespace && x.clusterName == y.clusterName
      && SameUpTo(x.targetSuffix, y.targetSuffix, "unknown")
      && x.namespace == y.namespace && x.contract == y.contract && x.context == y.context
      && Join(x.allocationKeys) == Join(y.allocationKeys) && SameUpTo(x.component, y.component, "root")
  {
    var k := NewComponentInstanceKey(x.clusterNamespace, x.clusterName, x.targetSuffix, x.namespace, x.contract, x.context,
                                     x.allocationKeys, x.service, x.component);
    var k' := NewComponentInstanceKey(y.clusterNamespace, y.clusterName, y.targetSuffix, y.namespace, y.contract, y.context,
                                      y.allocationKeys, y.service, y.component);
    KeysJoined(x.context, Join(x.allocationKeys));
    KeysJoined(y.context, Join(y.allocationKeys));
    assert Plain(UNKNOWN) && Plain(ROOT);
    if x.Key() == y.Key() {
      KeyInjective(k, k');
    }
  }

  /** The key string itself, part by part: the context is followed by its allocation keys, if there are any. */
  lemma KeyString(x: Inputs)
    ensures var keys := Join(x.allocationKeys);
      x.Key() == x.clusterNamespace + "#" + (x.clusterName + "#" + ((if x.targetSuffix == "" then "unknown" else x.targetSuffix) + "#"
        + (x.namespace + "#" + (x.contract + "#" + ((if keys == "" then x.context else x.context + "#" + keys) + "#"
        + (if x.component == "" then "root" else x.component))))))
  {
    KeyShape(NewComponentInstanceKey(x.clusterNamespace, x.clusterName, x.targetSuffix, x.namespace, x.contract, x.context,
                                     x.allocationKeys, x.service, x.component));
    KeysJoined(x.context, Join(x.allocationKeys));
  }

  /** The key of an instance, by the allocation keys; the other inputs are plain. */
  predicate PlainInputs(cns: string, cn: string, suffix: string, ns: string, contract: string, context: string, component: string) {
    && Plain(cns) && Plain(cn) && Plain(suffix) && Plain(ns) && Plain(contract) && Plain(context) && Plain(component)
  }

  lemma SameKeySameJoin(cns: string, cn: string, suffix: string, ns: string, contract: string, context: string,
                        keys: seq<string>, keys': seq<string>, service: string, component: string)
    requires PlainInputs(cns, cn, suffix, ns, contract, context, component)
    ensures NewComponentInstanceKey(cns, cn, suffix, ns, contract, context, keys, service, component).GetKey()
         == NewComponentInstanceKey(cns, cn, suffix, ns, contract, context, keys', service, component).GetKey()
       <==> Join(keys) == Join(keys')
  {
    SameKeyIffSameInputs(Inputs(cns, cn, suffix, ns, contract, context, keys, service, component),
                         Inputs(cns, cn, suffix, ns, contract, context, keys', service, component));
  }

  lemma KeysJoined(context: string, keys: string)
    ensures Join([context, keys]) == context + SEPARATOR + keys
  {
    JoinCons(context, [keys]);
  }

  /**
   A list of allocation keys is the only non-empty list of plain keys with its key string if and only if it is
   plain itself: otherwise the key string is also that of the list taken apart at every separator.
   */
  lemma AllocationKeysDeterminedIff(cns: string, cn: string, suffix: string, ns: string, contract: string, context: string,
                                    keys: seq<string>, service: string, component: string)
    requires PlainInputs(cns, cn, suffix, ns, contract, context, component) && keys != []
    ensures (forall others: seq<string> {:trigger AllPlain(others)} :: others != [] && AllPlain(others)
               && NewComponentInstanceKey(cns, cn, suffix, ns, contract, context, others, service, component).GetKey()
                  == NewComponentInstanceKey(cns, cn, suffix, ns, contract, context, keys, service, component).GetKey()
               ==> others == keys)
       <==> AllPlain(keys)
  {
    if AllPlain(keys) {
      forall others: seq<string> | others != [] && AllPlain(others)
          && NewComponentInstanceKey(cns, cn, suffix, ns, contract, context, others, service, component).GetKey()
             == NewComponentInstanceKey(cns, cn, suffix, ns, contract, context, keys, service, component).GetKey()
        ensures others == keys
      {
        SameKeySameJoin(cns, cn, suffix, ns, contract, context, others, keys, service, component);
        SplitUndoesJoin(others);
        SplitUndoesJoin(keys);
      }
    } else {
      var others := Split(Join(keys));
      JoinUndoesSplit(Join(keys));
      SameKeySameJoin(cns, cn, suffix, ns, contract, context, others, keys, service, component);
      assert AllPlain(others) && others != keys;
    }
  }
}
