/** Policy data: for each object of the policy, the generation that the policy refers to. */
module PolicyData {
  import opened Prelude
  import opened Generations

  /** Namespace, kind and name. */
  datatype ObjectId = ObjectId(ns: string, kind: string, name: string)

  type Index = map<string, map<string, map<string, Generation>>>

  function At(ix: Index, id: ObjectId): Option<Generation> {
    if id.ns in ix && id.kind in ix[id.ns] then Lookup(ix[id.ns][id.kind], id.name) else None
  }

  /** The index after Add, whose nested maps come into being on demand. */
  function Added(ix: Index, id: ObjectId, gen: Generation): (r: Index)
    ensures forall x :: At(r, x) == if x == id then Some(gen) else At(ix, x)
  {
    var byNs: map<string, map<string, Generation>> := if id.ns in ix then ix[id.ns] else map[];
    var byKind: map<string, Generation> := if id.kind in byNs then byNs[id.kind] else map[];
    ix[id.ns := byNs[id.kind := byKind[id.name := gen]]]
  }

  /** The index after Remove, which leaves empty maps behind. */
  function Removed(ix: Index, id: ObjectId): (r: Index)
    ensures forall x :: At(r, x) == if x == id then None else At(ix, x)
  {
    if id.ns in ix && id.kind in ix[id.ns] then ix[id.ns := ix[id.ns][id.kind := ix[id.ns][id.kind] - {id.name}]] else ix
  }

  class PolicyData {
    var Generation: Generation
    var Objects: Index

    constructor (generation: Generation, objects: Index)
      ensures Generation == generation && Objects == objects
    {
      Generation, Objects := generation, objects;
    }

    method Add(id: ObjectId, gen: Generation)
      modifies this`Objects
      ensures Objects == Added(old(Objects), id, gen)
    {
      var byNs: map<string, map<string, Generation>> := map[];
      if id.ns in Objects {
        byNs := Objects[id.ns];
      }
      var byKind: map<string, Generation> := map[];
      if id.kind in byNs {
        byKind := byNs[id.kind];
      }
      Objects := Objects[id.ns := byNs[id.kind := byKind[id.name := gen]]];
    }

    method Remove(id: ObjectId) returns (exist: bool)
      modifies this`Objects
      ensures Objects == Removed(old(Objects), id) && exist == At(old(Objects), id).Some?
    {
      if id.ns !in Objects {
        return false;
      }
      if id.kind !in Objects[id.ns] {
        return false;
      }
      exist := id.name in Objects[id.ns][id.kind];
      Objects := Objects[id.ns := Objects[id.ns][id.kind := Objects[id.ns][id.kind] - {id.name}]];
    }
  }

  // ---- Keys.

  function KeyFromParts(ns: string, kind: string, name: string): Key {
    ns + "/" + kind + if name == "" then "" else "/" + name
  }

  function KeyOf(id: ObjectId): Key {
    KeyFromParts(id.ns, id.kind, id.name)
  }

  const SYSTEM_NS := "system"
  const POLICY_KIND := "policy"
  const POLICY_KEY: Key := KeyFromParts(SYSTEM_NS, POLICY_KIND, "")

  predicate ProperPart(s: string) {
    s != "" && '/' !in s && '@' !in s
  }

  predicate ProperId(id: ObjectId) {
    ProperPart(id.ns) && ProperPart(id.kind) && ProperPart(id.name)
  }

  lemma KeyShape(id: ObjectId)
    requires ProperId(id)
    ensures var k := KeyOf(id);
      && |id.ns| + 1 + |id.kind| < |k|
      && k[|id.ns|] == '/' && (forall i :: 0 <= i < |id.ns| ==> k[i] != '/') && k[..|id.ns|] == id.ns
      && k[|id.ns| + 1 + |id.kind|] == '/'
      && (forall i :: |id.ns| < i < |id.ns| + 1 + |id.kind| ==> k[i] != '/')
      && k[|id.ns| + 1..|id.ns| + 1 + |id.kind|] == id.kind
      && k[|id.ns| + 1 + |id.kind| + 1..] == id.name
    ensures '@' !in KeyOf(id)
  {
  }

  /** Keys of proper objects are pairwise different, and different from the key of the policy. */
  lemma KeysDiffer(id: ObjectId, id': ObjectId)
    requires ProperId(id) && ProperId(id')
    ensures KeyOf(id) == KeyOf(id') <==> id == id'
  {
    if KeyOf(id) == KeyOf(id') {
      KeyShape(id);
      KeyShape(id');
      var k := KeyOf(id);
      assert |id.ns| == |id'.ns|;
      assert |id.kind| == |id'.kind|;
    }
  }

  lemma PolicyKeyDiffers(id: ObjectId)
    requires ProperId(id)
    ensures KeyOf(id) != POLICY_KEY
  {
    KeyShape(id);
    PolicyKeyShape();
  }

  lemma PolicyKeyShape()
    ensures forall i :: 0 <= i < |POLICY_KEY| && POLICY_KEY[i] == '/' ==> i == |SYSTEM_NS|
    ensures '@' !in POLICY_KEY
  {
  }
}
