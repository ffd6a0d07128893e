/** The operation-scoped memo cache and the stores that replay through it.

    `cache` is the dictionary that exists only while a scope is open.  Every
    replay below the top of a read goes through `Resolve`, which fills the cache
    in place; `fetched` records, in order, each key a resolver returned for since
    the outermost scope was opened. */
module ReplayScope {
  import opened Wrappers
  import opened StableSort
  import opened ReplayGraph
  import opened MadeArtifacts

  type Cache = map<Key, Artifact>

  /** Every cached value is the one plain, unmemoised recursion yields. */
  ghost predicate Sound(w: World, cache: Cache) {
    forall k :: k in cache ==> Get(w, k) == Some(cache[k])
  }

  ghost predicate Logged(cache: Cache, fetched: seq<Key>) {
    && NoRepeats(fetched)
    && forall k :: k in fetched <==> k in cache
  }

  /** `after` extends `before` with keys of lower rank than `bound` only. */
  ghost predicate Extends(before: Cache, after: Cache, bound: nat) {
    && (forall k :: k in before ==> k in after && after[k] == before[k])
    && (forall k :: k in after && k !in before ==> Rank(k.stage) < bound)
  }

  lemma SoundAfterGrowth(services: Services, before: Files, after: Files, cache: Cache)
    requires Grows(before, after) && Sound(World(services, before), cache)
    ensures Sound(World(services, after), cache)
  {
    forall k | k in cache
      ensures Get(World(services, after), k) == Some(cache[k])
    {
      GetMonotone(services, before, after, k);
    }
  }

  /** Inside a scope there were exactly as many successful fetches as cached keys. */
  lemma {:induction false} FetchesAreCached(cache: Cache, fetched: seq<Key>)
    requires Logged(cache, fetched)
    ensures |fetched| == |cache|
    decreases |fetched|
  {
    if fetched == [] {
      assert cache.Keys == {};
      assert |cache| == |cache.Keys|;
    } else {
      var last, front := fetched[|fetched| - 1], fetched[..|fetched| - 1];
      assert fetched == front + [last] && last in fetched;
      assert last !in front;
      FetchesAreCached(cache - {last}, front);
      assert (cache - {last}).Keys == cache.Keys - {last};
      assert |cache.Keys| == |cache| && |(cache - {last}).Keys| == |cache - {last}|;
    }
  }

  lemma CacheExtended(w: World, cache: Cache, fetched: seq<Key>, key: Key, value: Artifact)
    requires Sound(w, cache) && Logged(cache, fetched) && key !in cache && Get(w, key) == Some(value)
    ensures Sound(w, cache[key := value]) && Logged(cache[key := value], fetched + [key])
  {
    var after := cache[key := value];
    forall k
      ensures k in fetched + [key] <==> k in after
    {
      assert k in fetched + [key] <==> k in fetched || k == key;
    }
  }

  lemma {:induction false} AllResolved(w: World, keys: seq<Key>, bound: nat, values: seq<Artifact>)
    requires forall k :: k in keys ==> Rank(k.stage) < bound
    requires |values| == |keys|
    requires forall i :: 0 <= i < |keys| ==> Get(w, keys[i]) == Some(values[i])
    ensures GetAll(w, keys, bound) == Some(values)
  {
    GetAllPointwise(w, keys, bound);
    var all := GetAll(w, keys, bound).value;
    assert forall i :: 0 <= i < |keys| ==> Some(all[i]) == Some(values[i]);
    assert all == values;
  }

  lemma OneMoreResolved(w: World, keys: seq<Key>, bound: nat, i: nat, values: seq<Artifact>)
    requires forall k :: k in keys ==> Rank(k.stage) < bound
    requires i < |keys| && GetAll(w, keys[..i], bound) == Some(values) && Get(w, keys[i]).Some?
    ensures GetAll(w, keys[..i + 1], bound) == Some(values + [Get(w, keys[i]).value])
  {
    GetAllPointwise(w, keys[..i], bound);
    var more := values + [Get(w, keys[i]).value];
    forall j | 0 <= j < i + 1
      ensures Get(w, keys[..i + 1][j]) == Some(more[j])
    {
      assert j < i ==> keys[..i][j] == keys[j];
    }
    AllResolved(w, keys[..i + 1], bound, more);
  }

  lemma OneUnresolved(w: World, keys: seq<Key>, bound: nat, i: nat)
    requires forall k :: k in keys ==> Rank(k.stage) < bound
    requires i < |keys| && Get(w, keys[i]).None?
    ensures GetAll(w, keys, bound).None?
  {
    GetAllPointwise(w, keys, bound);
  }

  /** A made artifact whose record is stored reads back, also when more is stored. */
  lemma StoredReadsBack(services: Services, before: Files, after: Files, value: Artifact)
    requires !IsLeaf(value.stage) && Grows(before, after)
    requires WellMade(World(services, before), value)
    requires KeyOf(value) in after && after[KeyOf(value)] == RecordOf(value) && Readable(services, RecordOf(value))
    ensures Get(World(services, after), KeyOf(value)) == Some(value)
  {
    forall s | s in value.primary + value.secondary + value.tertiary
      ensures Get(World(services, after), KeyOf(s)) == Some(s)
    {
      GetMonotone(services, before, after, KeyOf(s));
    }
    GetIffMade(World(services, after), value);
  }

  /** Exactly when a put leaves the value's record stored: the value is what its service
      makes of fitting sources that are held, its record encodes, and nothing different is
      stored under its name. */
  ghost predicate MayWrite(w: World, value: Artifact) {
    && WellMade(w, value)
    && w.services.encodes(RecordOf(value))
    && (KeyOf(value) in w.files ==> w.files[KeyOf(value)] == RecordOf(value))
  }

  /** Exactly when a put succeeds: besides, the record keeps within what the read back
      takes.  The write itself has no such limit. */
  ghost predicate CanPut(w: World, value: Artifact) {
    MayWrite(w, value) && w.services.fits(RecordOf(value))
  }

  /** The files a put leaves. */
  ghost function FilesAfterPut(w: World, value: Artifact): Files {
    if MayWrite(w, value) then w.files[KeyOf(value) := RecordOf(value)] else w.files
  }

  /** What an oversized put leaves behind: its put fails with the record stored, and from
      then on, however the files grow, no read of that name and no put under it succeeds. */
  lemma OversizedBlocksItsName(services: Services, before: Files, after: Files, value: Artifact, later: Artifact)
    requires !IsLeaf(value.stage) && MayWrite(World(services, before), value) && !services.fits(RecordOf(value))
    requires Grows(FilesAfterPut(World(services, before), value), after) && KeyOf(later) == KeyOf(value)
    ensures !CanPut(World(services, before), value)
    ensures Get(World(services, after), KeyOf(value)).None?
    ensures !CanPut(World(services, after), later)
  {
    assert after[KeyOf(value)] == RecordOf(value);
  }

  class GraphStores {
    const services: Services
    var files: Files
    var cache: Option<Cache>
    ghost var fetched: seq<Key>

    constructor (services: Services)
      ensures Valid() && cache.None? && files == map[] && this.services == services
    {
      this.services := services;
      files, cache, fetched := map[], None, [];
    }

    ghost function Stored(): World
      reads `files
    {
      World(services, files)
    }

    ghost predicate Valid()
      reads `files, `cache, `fetched
    {
      cache.Some? ==> Sound(Stored(), cache.value) && Logged(cache.value, fetched)
    }

    /** What every read leaves of the cache: outside a scope nothing, inside a scope a
        sound extension by lower-ranked keys, each logged once. */
    twostate predicate CacheStep(bound: nat)
      reads this
    {
      && cache.Some? == old(cache.Some?)
      && (cache.None? ==> fetched == old(fetched))
      && (cache.Some? ==> Extends(old(cache.value), cache.value, bound) && old(fetched) <= fetched)
    }

    method Open() returns (outermost: bool)
      requires Valid()
      modifies `cache, `fetched
      ensures Valid() && outermost == old(cache.None?) && cache.Some?
      ensures outermost ==> cache == Some(map[]) && fetched == []
      ensures !outermost ==> cache == old(cache) && fetched == old(fetched)
    {
      outermost := cache.None?;
      if outermost {
        cache := Some(map[]);
        fetched := [];
      }
    }

    method Close(outermost: bool)
      requires Valid() && cache.Some?
      modifies `cache
      ensures Valid()
      ensures cache == if outermost then None else old(cache)
    {
      if outermost {
        cache := None;
      }
    }

    /** `ExactReplayScope.resolve`: a cached value, or the resolver's, stored on return. */
    method Resolve(key: Key) returns (r: Option<Artifact>)
      requires Valid()
      modifies `cache, `fetched
      ensures Valid() && CacheStep(Rank(key.stage) + 1)
      ensures r == Get(Stored(), key)
      ensures cache.Some? && r.Some? ==> key in cache.value
      decreases Rank(key.stage), 3
    {
      if cache.None? {
        r := Fetch(key);
      } else {
        if key !in cache.value {
          var value := Fetch(key);
          if value.None? {
            return None;
          }
          CacheExtended(Stored(), cache.value, fetched, key, value.value);
          cache := Some(cache.value[key := value.value]);
          fetched := fetched + [key];
        }
        r := Some(cache.value[key]);
      }
    }

    /** `resolver.get`: a leaf resolver, or one of the eight replaying stores. */
    method Fetch(key: Key) returns (r: Option<Artifact>)
      requires Valid()
      modifies `cache, `fetched
      ensures Valid() && CacheStep(Rank(key.stage))
      ensures r == Get(Stored(), key)
      decreases Rank(key.stage), 2
    {
      if IsLeaf(key.stage) {
        return services.leaf(key);
      }
      if key !in files || !Readable(services, files[key]) || files[key].kind != key.stage || files[key].artifactId != key.id {
        return None;
      }
      var replayed := ReplayRecord(files[key]);
      if replayed.None? || !ReplayMatches(key, files[key], replayed.value) {
        return None;
      }
      r := replayed;
    }

    method ReplayRecord(rec: Record) returns (r: Option<Artifact>)
      requires Valid()
      modifies `cache, `fetched
      ensures Valid() && CacheStep(Rank(rec.kind))
      ensures r == Replay(Stored(), rec)
      decreases Rank(rec.kind), 1
    {
      if !ShapeOk(rec) {
        return None;
      }
      var primary := ResolveAll(PrimaryKeys(rec), Rank(rec.kind));
      if primary.None? { return None; }
      var secondary := ResolveAll(SecondaryKeys(rec), Rank(rec.kind));
      if secondary.None? { return None; }
      var tertiary := ResolveAll(TertiaryKeys(rec), Rank(rec.kind));
      if tertiary.None? { return None; }
      r := Materialize(services, rec, Resolved(primary.value, secondary.value, tertiary.value));
    }

    method ResolveAll(keys: seq<Key>, bound: nat) returns (r: Option<seq<Artifact>>)
      requires Valid()
      requires forall k :: k in keys ==> Rank(k.stage) < bound
      modifies `cache, `fetched
      ensures Valid() && CacheStep(bound)
      ensures r == GetAll(Stored(), keys, bound)
      decreases bound, 0
    {
      r := Some([]);
      assert keys[..0] == [];
      for i := 0 to |keys|
        invariant Valid() && CacheStep(bound)
        invariant r.Some? && r == GetAll(Stored(), keys[..i], bound)
      {
        assert keys[i] in keys;
        var value := Resolve(keys[i]);
        if value.None? {
          OneUnresolved(Stored(), keys, bound, i);
          return None;
        }
        OneMoreResolved(Stored(), keys, bound, i, r.value);
        r := Some(r.value + [value.value]);
      }
      assert keys[..|keys|] == keys;
    }

    /** What `put` checks of a value before anything is written: it verifies its own
        content, and replaying its record gives it again. */
    method Verify(value: Artifact) returns (ok: bool)
      requires Valid() && !IsLeaf(value.stage)
      modifies `cache, `fetched
      ensures Valid() && cache.Some? == old(cache.Some?)
      ensures ok == WellMade(Stored(), value)
    {
      ReplayIffMade(Stored(), value);
      ok := false;
      if Build(services, RequestOf(value)) == Some(value) {
        var replayed := ReplayRecord(RecordOf(value));
        ok := replayed == Some(value);
      }
    }

    /** The create-once write of a record, and the read back. */
    method Store(value: Artifact) returns (r: Option<Artifact>)
      requires Valid() && !IsLeaf(value.stage) && MayWrite(Stored(), value)
      modifies `files, `cache, `fetched
      ensures Valid() && cache.Some? == old(cache.Some?)
      ensures files == old(files)[KeyOf(value) := RecordOf(value)] && Grows(old(files), files)
      ensures r == if services.fits(RecordOf(value)) then Some(value) else None
      ensures r == Get(Stored(), KeyOf(value))
    {
      SoundPut(value);
      files := files[KeyOf(value) := RecordOf(value)];
      if services.fits(RecordOf(value)) {
        StoredReadsBack(services, old(files), files, value);
      }
      r := Fetch(KeyOf(value));
    }

    /** `_LocalReplayStore.put`: verify, replay from the record, encode, create once, read
        back.  An oversized record is stored all the same, and the read back then fails. */
    method Put(value: Artifact) returns (r: Option<Artifact>)
      requires Valid() && !IsLeaf(value.stage)
      modifies `files, `cache, `fetched
      ensures Valid() && cache.Some? == old(cache.Some?)
      ensures Grows(old(files), files)
      ensures r == if CanPut(old(Stored()), value) then Some(value) else None
      ensures files == FilesAfterPut(old(Stored()), value)
      ensures r.Some? ==> Get(Stored(), KeyOf(value)) == Some(value)
    {
      r := None;
      var verified := Verify(value);
      var record := RecordOf(value);
      if verified && services.encodes(record) {
        if KeyOf(value) !in files || (services.fits(files[KeyOf(value)]) && files[KeyOf(value)] == record) {
          r := Store(value);
        } else {
          assert KeyOf(value) in files && files[KeyOf(value)] == record ==>
            files[KeyOf(value) := record] == files;
        }
      }
    }

    lemma SoundPut(value: Artifact)
      requires Valid()
      requires KeyOf(value) in files ==> files[KeyOf(value)] == RecordOf(value)
      ensures Grows(files, files[KeyOf(value) := RecordOf(value)])
      ensures cache.Some? ==>
                Sound(World(services, files[KeyOf(value) := RecordOf(value)]), cache.value)
    {
      if cache.Some? {
        SoundAfterGrowth(services, files, files[KeyOf(value) := RecordOf(value)], cache.value);
      }
    }
  }
}
