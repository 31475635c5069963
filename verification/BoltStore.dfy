/** The versioned object store over one ordered bucket of paths. */
module BoltStore {
  import opened Prelude
  import opened Generations

  /** A stored object. Objects of kinds without versions have generation 0. */
  datatype Object<+T> = Object(kind: string, key: Key, gen: Generation, deleted: bool, content: T)

  datatype Info = Info(versioned: bool, deletable: bool)

  type Bucket<T> = map<string, Object<T>>

  const SEPARATOR := "@"

  function Path(key: Key, gen: Generation): string {
    key + SEPARATOR + GenStr(gen)
  }

  ghost predicate ValidBucket<T>(b: Bucket<T>) {
    forall p :: p in b ==> p == Path(b[p].key, b[p].gen) && '@' !in b[p].key
  }

  lemma PathInjective(k: Key, g: Generation, k': Key, g': Generation)
    requires Path(k, g) == Path(k', g')
    ensures k == k' && g == g'
  {
    GenStrLength(g);
    GenStrLength(g');
    var p := Path(k, g);
    assert p[..|p| - WIDTH - 1] == k && p[..|p| - WIDTH - 1] == k';
    assert p[|p| - WIDTH..] == GenStr(g) && p[|p| - WIDTH..] == GenStr(g');
    GenStrOrder(g, g');
  }

  function Stored<T>(b: Bucket<T>, key: Key, gen: Generation): Option<Object<T>> {
    Lookup(b, Path(key, gen))
  }

  /** The stored object of the greatest generation up to n. */
  ghost function LastUpTo<T>(b: Bucket<T>, key: Key, n: Generation): (r: Option<Object<T>>)
    requires ValidBucket(b)
    ensures r.None? ==> forall g: Generation :: g <= n ==> Path(key, g) !in b
    ensures r.Some? ==> r.value.gen <= n && r.value.key == key && r == Stored(b, key, r.value.gen)
    ensures r.Some? ==> forall g: Generation :: g <= n && Path(key, g) in b ==> g <= r.value.gen
  {
    if Path(key, n) in b then PathInjective(key, n, b[Path(key, n)].key, b[Path(key, n)].gen); Some(b[Path(key, n)])
    else if n == 0 then None
    else LastUpTo(b, key, n - 1)
  }

  ghost function Last<T>(b: Bucket<T>, key: Key): Option<Object<T>>
    requires ValidBucket(b)
  {
    LastUpTo(b, key, MAX_GENERATION)
  }

  /** What GetGen finds. */
  ghost function Found<T>(b: Bucket<T>, key: Key, gen: Generation): Option<Object<T>>
    requires ValidBucket(b)
  {
    if gen == LAST_GEN then Last(b, key) else Stored(b, key, gen)
  }

  /** The last object is the one with the lexicographically greatest path among those with its prefix. */
  lemma LastIsGreatest<T>(b: Bucket<T>, key: Key, p: string)
    requires ValidBucket(b) && p in b && b[p].key == key
    requires forall q :: q in b && b[q].key == key && q != p ==> LexLess(q, p)
    ensures Last(b, key) == Some(b[p])
  {
    var r := Last(b, key);
    assert r.Some?;
    var q := Path(key, r.value.gen);
    if q != p {
      LexLessPrefix(key + SEPARATOR, GenStr(r.value.gen), GenStr(b[p].gen));
      GenStrOrder(r.value.gen, b[p].gen);
    }
  }

  predicate HasPrefix(s: string, prefix: string) {
    |prefix| <= |s| && s[..|prefix|] == prefix
  }

  /** The prefix scan meets exactly the objects with the key, because keys are free of the separator. */
  lemma PrefixIsKey(key: Key, key': Key, gen: Generation)
    requires '@' !in key && '@' !in key'
    ensures HasPrefix(Path(key', gen), key + SEPARATOR) <==> key' == key
  {
    var p, q := Path(key', gen), key + SEPARATOR;
    assert p[|key'|] == '@' && forall i :: 0 <= i < |key'| ==> p[i] == key'[i];
    assert q[|key|] == '@' && forall i :: 0 <= i < |key| ==> q[i] == key[i];
    if HasPrefix(p, q) {
      assert forall i :: 0 <= i < |q| ==> p[i] == q[i];
    }
    assert p[..|key'| + 1] == key' + SEPARATOR;
  }

  lemma {:induction false} LexMin(keys: set<string>) returns (k: string)
    requires keys != {}
    ensures k in keys && forall x :: x in keys && x != k ==> LexLess(k, x)
    decreases |keys|
  {
    k :| k in keys;
    if keys != {k} {
      var k' := LexMin(keys - {k});
      LexLessTotal(k, k');
      if LexLess(k', k) {
        k := k';
      } else {
        forall x | x in keys && x != k && x != k' ensures LexLess(k, x) {
          LexLessTransitive(k, k', x);
        }
      }
    }
  }

  // ---- Saving.

  datatype SaveResult<+T> = Saved(updated: bool, obj: Object<T>) | NotSaved

  /** What is to be stored, given the object found for the generation of obj and the last one. */
  function Prepare<T(==)>(info: Info, found: Option<Object<T>>, last: Option<Object<T>>, obj: Object<T>, updateCurrent: bool): SaveResult<T> {
    if !info.versioned then Saved(false, obj.(gen := LAST_GEN))
    else if obj.deleted && (!info.deletable || found.None?) then NotSaved
    else if found.None? then Saved(true, if obj.gen == LAST_GEN then obj.(gen := FIRST_GEN) else obj)
    else if !updateCurrent && obj.(gen := found.value.gen) != found.value then
      Saved(true, obj.(gen := if last.Some? then Next(last.value.gen) else FIRST_GEN))
    else Saved(false, obj.(gen := found.value.gen))
  }

  ghost function Save<T>(b: Bucket<T>, info: Info, obj: Object<T>, updateCurrent: bool): (SaveResult<T>, Bucket<T>)
    requires ValidBucket(b)
  {
    var r := Prepare(info, Found(b, obj.key, obj.gen), Last(b, obj.key), obj, updateCurrent);
    (r, if r.Saved? then b[Path(r.obj.key, r.obj.gen) := r.obj] else b)
  }

  lemma SaveKeepsValid<T>(b: Bucket<T>, info: Info, obj: Object<T>, updateCurrent: bool)
    requires ValidBucket(b) && '@' !in obj.key
    ensures ValidBucket(Save(b, info, obj, updateCurrent).1)
  {
  }

  /** The generation counter has run out and started over at 0. */
  ghost predicate WrapsAround<T>(b: Bucket<T>, info: Info, obj: Object<T>)
    requires ValidBucket(b)
  {
    && Last(b, obj.key).Some? && Last(b, obj.key).value.gen == MAX_GENERATION
    && Save(b, info, obj, false).0.Saved? && Save(b, info, obj, false).0.updated && Found(b, obj.key, obj.gen).Some?
  }

  /**
   Append-only history: saving a versioned object alters a stored entry if and only if the 64-bit
   generation of the object wraps around onto an entry stored before under generation 0.
   */
  lemma SaveAltersIff<T>(b: Bucket<T>, info: Info, obj: Object<T>, p: string)
    requires ValidBucket(b) && info.versioned && p in b
    ensures var (r, b') := Save(b, info, obj, false);
      p in b' && (b'[p] != b[p] <==> WrapsAround(b, info, obj) && p == Path(obj.key, 0) && b[p] != r.obj)
  {
  }

  /** Without wrap-around, a save that stores something new makes it the last generation, one after the previous one. */
  lemma SavedIsLast<T>(b: Bucket<T>, info: Info, obj: Object<T>)
    requires ValidBucket(b) && '@' !in obj.key && info.versioned
    requires obj.gen == LAST_GEN || (Last(b, obj.key).Some? && Last(b, obj.key).value.gen == obj.gen)
    requires Last(b, obj.key).Some? ==> Last(b, obj.key).value.gen < MAX_GENERATION
    ensures var (r, b') := Save(b, info, obj, false);
      ValidBucket(b') &&
      (r.Saved? ==>
        && Last(b', obj.key) == Some(r.obj)
        && r.obj == obj.(gen := r.obj.gen)
        && r.obj.gen == (if Last(b, obj.key).None? then FIRST_GEN
                         else Last(b, obj.key).value.gen + if r.updated then 1 else 0)
        && (r.updated <==> Last(b, obj.key) != Some(r.obj)))
  {
    SaveKeepsValid(b, info, obj, false);
    var (r, b') := Save(b, info, obj, false);
    if r.Saved? {
      var l := Last(b', obj.key);
      assert Path(obj.key, r.obj.gen) in b';
      PathOfKey(b, b', r.obj, l.value.gen);
    }
  }

  // ---- Reading back what has been saved.

  /** Only the entry of the given path changes. */
  ghost predicate OnlyStored<T>(b: Bucket<T>, b': Bucket<T>, o: Object<T>) {
    && Stored(b', o.key, o.gen) == Some(o)
    && b'.Keys == b.Keys + {Path(o.key, o.gen)}
    && forall p :: p in b && p != Path(o.key, o.gen) ==> b'[p] == b[p]
  }

  /** The mark of a deletion is refused for kinds that cannot be deleted, and for what is not stored; nothing else is. */
  lemma RefusedIff<T>(b: Bucket<T>, info: Info, obj: Object<T>, updateCurrent: bool)
    requires ValidBucket(b)
    ensures var (r, b') := Save(b, info, obj, updateCurrent);
      && (r.NotSaved? <==> info.versioned && obj.deleted && !(info.deletable && Found(b, obj.key, obj.gen).Some?))
      && (r.NotSaved? ==> b' == b)
      && (r.Saved? ==> r.obj == obj.(gen := r.obj.gen) && OnlyStored(b, b', r.obj))
  {
  }

  lemma FoundHasGen<T>(b: Bucket<T>, key: Key, gen: Generation)
    requires ValidBucket(b) && Found(b, key, gen).Some?
    ensures var o := Found(b, key, gen).value;
      o.key == key && (gen != LAST_GEN ==> o.gen == gen) && Stored(b, key, o.gen) == Some(o)
  {
    if gen != LAST_GEN {
      PathInjective(key, gen, b[Path(key, gen)].key, b[Path(key, gen)].gen);
    }
  }

  /** A new value for the last generation leaves it the last one. */
  lemma {:induction false} LastReplaced<T>(b: Bucket<T>, o: Object<T>, n: Generation)
    requires ValidBucket(b) && '@' !in o.key && Path(o.key, o.gen) in b && LastUpTo(b, o.key, n).Some?
    ensures ValidBucket(b[Path(o.key, o.gen) := o])
    ensures LastUpTo(b[Path(o.key, o.gen) := o], o.key, n)
         == if LastUpTo(b, o.key, n).value.gen == o.gen then Some(o) else LastUpTo(b, o.key, n)
  {
    var b' := b[Path(o.key, o.gen) := o];
    if Path(o.key, n) in b {
      PathInjective(o.key, n, b[Path(o.key, n)].key, b[Path(o.key, n)].gen);
      if Path(o.key, n) == Path(o.key, o.gen) {
        PathInjective(o.key, n, o.key, o.gen);
      }
    } else {
      LastReplaced(b, o, n - 1);
    }
  }

  /**
   An update of what is stored: the new value is under the generation found, is what is read back from then
   on, and nothing is added or altered besides. It is never reported as a change.
   */
  lemma UpdatedInPlace<T>(b: Bucket<T>, info: Info, obj: Object<T>)
    requires ValidBucket(b) && '@' !in obj.key && info.versioned && Found(b, obj.key, obj.gen).Some? && (obj.deleted ==> info.deletable)
    ensures var g := Found(b, obj.key, obj.gen).value.gen;
      var (r, b') := Save(b, info, obj, true);
      && r == Saved(false, obj.(gen := g)) && ValidBucket(b') && b'.Keys == b.Keys
      && Found(b', obj.key, obj.gen) == Some(obj.(gen := g)) && Found(b', obj.key, g) == Some(obj.(gen := g))
      && forall p :: p in b && p != Path(obj.key, g) ==> b'[p] == b[p]
  {
    var g := Found(b, obj.key, obj.gen).value.gen;
    var o := obj.(gen := g);
    SaveKeepsValid(b, info, obj, true);
    FoundHasGen(b, obj.key, obj.gen);
    assert Path(o.key, o.gen) in b;
    if obj.gen == LAST_GEN {
      LastReplaced(b, o, MAX_GENERATION);
    }
  }

  /** A change to any generation that is stored becomes the next generation after the last one. */
  lemma ChangedIsNext<T>(b: Bucket<T>, info: Info, obj: Object<T>)
    requires ValidBucket(b) && '@' !in obj.key && info.versioned && (obj.deleted ==> info.deletable)
    requires Found(b, obj.key, obj.gen).Some? && Last(b, obj.key).value.gen < MAX_GENERATION
    requires obj.(gen := Found(b, obj.key, obj.gen).value.gen) != Found(b, obj.key, obj.gen).value
    ensures var (r, b') := Save(b, info, obj, false);
      && r == Saved(true, obj.(gen := Last(b, obj.key).value.gen + 1)) && ValidBucket(b')
      && Last(b', obj.key) == Some(r.obj)
  {
    SaveKeepsValid(b, info, obj, false);
    FoundHasGen(b, obj.key, obj.gen);
    var (r, b') := Save(b, info, obj, false);
    var l := Last(b', obj.key);
    assert Path(obj.key, r.obj.gen) in b';
    PathOfKey(b, b', r.obj, l.value.gen);
  }

  /** Saving what is stored already changes nothing. */
  lemma UnchangedStays<T>(b: Bucket<T>, info: Info, obj: Object<T>, updateCurrent: bool)
    requires ValidBucket(b) && info.versioned && Found(b, obj.key, obj.gen).Some? && (obj.deleted ==> info.deletable)
    requires obj.(gen := Found(b, obj.key, obj.gen).value.gen) == Found(b, obj.key, obj.gen).value
    ensures var (r, b') := Save(b, info, obj, updateCurrent); r == Saved(false, Found(b, obj.key, obj.gen).value) && b' == b
  {
    FoundHasGen(b, obj.key, obj.gen);
    var o := Found(b, obj.key, obj.gen).value;
    SameAgain(b, Path(o.key, o.gen), o);
  }

  lemma SameAgain<T>(b: Bucket<T>, p: string, o: Object<T>)
    requires p in b && b[p] == o
    ensures b[p := o] == b
  {
  }

  /** What is not stored yet is stored as the first generation, or as the one it names. */
  lemma NewIsStored<T>(b: Bucket<T>, info: Info, obj: Object<T>, updateCurrent: bool)
    requires ValidBucket(b) && '@' !in obj.key && info.versioned && !obj.deleted && Found(b, obj.key, obj.gen).None?
    ensures var (r, b') := Save(b, info, obj, updateCurrent);
      var g := if obj.gen == LAST_GEN then FIRST_GEN else obj.gen;
      r == Saved(true, obj.(gen := g)) && ValidBucket(b') && Found(b', obj.key, g) == Some(obj.(gen := g))
  {
    SaveKeepsValid(b, info, obj, updateCurrent);
  }

  /** An object without versions is what is read back after saving it, however it is saved. */
  lemma UnversionedReadBack<T>(b: Bucket<T>, info: Info, obj: Object<T>, updateCurrent: bool)
    requires ValidBucket(b) && '@' !in obj.key && !info.versioned
    ensures var (r, b') := Save(b, info, obj, updateCurrent);
      && r == Saved(false, obj.(gen := LAST_GEN)) && ValidBucket(b') && Stored(b', obj.key, LAST_GEN) == Some(r.obj)
      && OnlyStored(b, b', r.obj)
  {
    SaveKeepsValid(b, info, obj, updateCurrent);
  }

  lemma PathOfKey<T>(b: Bucket<T>, b': Bucket<T>, o: Object<T>, g: Generation)
    requires ValidBucket(b) && b' == b[Path(o.key, o.gen) := o] && Path(o.key, g) in b'
    ensures g == o.gen || Path(o.key, g) in b
  {
    if Path(o.key, g) == Path(o.key, o.gen) {
      PathInjective(o.key, g, o.key, o.gen);
    }
  }

  /** Saving one key leaves the others alone. */
  lemma {:induction false} OthersUpTo<T>(b: Bucket<T>, o: Object<T>, key: Key, n: Generation)
    requires ValidBucket(b) && '@' !in o.key && key != o.key
    ensures ValidBucket(b[Path(o.key, o.gen) := o])
    ensures LastUpTo(b[Path(o.key, o.gen) := o], key, n) == LastUpTo(b, key, n)
  {
  }

  lemma SaveLeavesOthers<T>(b: Bucket<T>, info: Info, obj: Object<T>, updateCurrent: bool, key: Key)
    requires ValidBucket(b) && '@' !in obj.key && key != obj.key
    ensures var (r, b') := Save(b, info, obj, updateCurrent);
      ValidBucket(b') && Last(b', key) == Last(b, key) && forall g: Generation :: Stored(b', key, g) == Stored(b, key, g)
  {
    var (r, b') := Save(b, info, obj, updateCurrent);
    if r.Saved? {
      OthersUpTo(b, r.obj, key, MAX_GENERATION);
      forall g: Generation ensures Stored(b', key, g) == Stored(b, key, g) {
        if Path(key, g) == Path(r.obj.key, r.obj.gen) {
          PathInjective(key, g, r.obj.key, r.obj.gen);
        }
      }
    }
  }

  // ---- The store itself.

  class BoltStore<T(==)> {
    const registry: map<string, Info>
    var bucket: Bucket<T>

    ghost predicate Valid()
      reads this
    {
      ValidBucket(bucket)
    }

    constructor (registry: map<string, Info>)
      ensures Valid() && this.registry == registry && bucket == map[]
    {
      this.registry, this.bucket := registry, map[];
    }

    /** The object of a kind without versions. */
    method Get(key: Key) returns (r: Option<Object<T>>)
      ensures r == Stored(bucket, key, LAST_GEN)
    {
      r := Lookup(bucket, Path(key, LAST_GEN));
    }

    /** For the last generation, the cursor walks over all paths with the prefix, in order, and keeps the last. */
    method GetGen(key: Key, gen: Generation) returns (r: Option<Object<T>>)
      requires Valid() && '@' !in key
      ensures r == Found(bucket, key, gen)
    {
      if gen != LAST_GEN {
        return Lookup(bucket, Path(key, gen));
      }
      r := None;
      var rest := set p | p in bucket && HasPrefix(p, key + SEPARATOR);
      ghost var all := rest;
      while rest != {}
        invariant rest <= all
        invariant r.None? ==> rest == all
        invariant r.Some? ==> Path(r.value.key, r.value.gen) in all - rest && r == Lookup(bucket, Path(r.value.key, r.value.gen))
        invariant r.Some? ==> forall p :: p in rest ==> LexLess(Path(r.value.key, r.value.gen), p)
        invariant r.Some? ==> forall p :: p in all - rest && p != Path(r.value.key, r.value.gen) ==>
                                LexLess(p, Path(r.value.key, r.value.gen))
      {
        ghost var least := LexMin(rest);
        var p :| p in rest && forall x :: x in rest && x != p ==> LexLess(p, x);
        if r.Some? {
          forall x | x in all - rest && x != p ensures LexLess(x, p) {
            if x != Path(r.value.key, r.value.gen) {
              LexLessTransitive(x, Path(r.value.key, r.value.gen), p);
            }
          }
        }
        r := Some(bucket[p]);
        rest := rest - {p};
      }
      forall p | p in bucket ensures p in all <==> bucket[p].key == key {
        PrefixIsKey(key, bucket[p].key, bucket[p].gen);
      }
      if r.Some? {
        LastIsGreatest(bucket, key, Path(r.value.key, r.value.gen));
      }
    }

    /** The store's Save and, with updateCurrent, Update. */
    method SaveObject(obj: Object<T>, updateCurrent: bool) returns (r: SaveResult<T>)
      requires Valid() && '@' !in obj.key
      modifies this
      ensures Valid()
      ensures if obj.kind !in registry then r == NotSaved && bucket == old(bucket)
              else (r, bucket) == Save(old(bucket), registry[obj.kind], obj, updateCurrent)
      ensures r.Saved? ==> r.obj == obj.(gen := r.obj.gen) && OnlyStored(old(bucket), bucket, r.obj)
    {
      if obj.kind !in registry {
        return NotSaved;
      }
      var info := registry[obj.kind];
      SaveKeepsValid(bucket, info, obj, updateCurrent);
      RefusedIff(bucket, info, obj, updateCurrent);
      var stored := obj;
      var updated := false;
      if info.versioned {
        var existing := GetGen(obj.key, obj.gen);
        if obj.deleted {
          if !info.deletable || existing.None? {
            return NotSaved;
          }
        }
        if existing.Some? {
          stored := obj.(gen := existing.value.gen);
          if !updateCurrent && stored != existing.value {
            var last := GetGen(obj.key, LAST_GEN);
            stored := stored.(gen := if last.Some? then Next(last.value.gen) else FIRST_GEN);
            updated := true;
          }
        } else {
          if obj.gen == LAST_GEN {
            stored := obj.(gen := FIRST_GEN);
          }
          updated := true;
        }
      } else {
        stored := obj.(gen := LAST_GEN);
      }
      bucket := bucket[Path(stored.key, stored.gen) := stored];
      r := Saved(updated, stored);
    }
  }
}
