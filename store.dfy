/**
 * The two collaborators the records live in: the durable datastore (key ->
 * entity, one map per entity kind) and the shared cache (namespaced key ->
 * value, emptied by deletion on every write).
 */
module Store {
  import opened Base
  import opened Entities

  /** The cache keys model.py builds as lists: [Map, id, 'json'] and the CatalogEntry partitions. */
  datatype CacheKey =
    | MapJson(mapId: string)                            // [Map, id, 'json']
    | CatalogList(scope: string, kind: string)          // [CatalogEntry, domain or '*', 'all' or 'listed']
    | CatalogJson(domain: string, entryLabel: string)   // [CatalogEntry, domain, label, 'json']

  /** The scope under which the lists that span all domains are cached. */
  const AllDomains := "*"

  /** The four list partitions that every catalog write makes stale. */
  function CatalogListKeys(domain: string): set<CacheKey> {
    {CatalogList(AllDomains, "all"), CatalogList(AllDomains, "listed"),
     CatalogList(domain, "all"), CatalogList(domain, "listed")}
  }

  /** Cached JSON content (or its absence), or a cached list of catalog entries. */
  datatype CacheValue = JsonText(text: Option<string>) | EntryList(entries: seq<CatalogRecord>)

  class Cache {
    var entries: map<CacheKey, CacheValue>

    /** JSON keys hold JSON values and list keys hold lists. */
    ghost predicate Valid()
      reads this
    {
      forall k :: k in entries ==> (entries[k].JsonText? <==> !k.CatalogList?)
    }

    constructor ()
      ensures Valid() && entries == map[]
    {
      entries := map[];
    }

    /** The store half of get-or-compute, after a miss. */
    method Put(key: CacheKey, value: CacheValue)
      requires Valid() && (value.JsonText? <==> !key.CatalogList?)
      modifies this
      ensures Valid() && entries == old(entries)[key := value]
    {
      entries := entries[key := value];
    }

    /** Removes an entry; absence is not an error. */
    method Delete(key: CacheKey)
      requires Valid()
      modifies this
      ensures Valid() && entries == old(entries) - {key}
    {
      entries := entries - {key};
    }
  }

  /** The key name a catalog entity is stored under. */
  function EntryKey(domain: string, entryLabel: string): (r: string)
    ensures |r| == |domain| + 1 + |entryLabel|
    ensures r[..|domain|] == domain && r[|domain|] == ':' && r[|domain| + 1..] == entryLabel
  {
    domain + ":" + entryLabel
  }

  class Datastore {
    var maps: map<string, MapRecord>             // MapModel entities by key name
    var versions: map<VersionKey, MapVersion>    // MapVersionModel entities
    var catalog: map<string, CatalogRecord>      // CatalogEntryModel entities by key name
    var nextVersionId: nat                       // next numeric id the datastore hands out

    ghost predicate Resolves(m: MapRecord)
      reads this
    {
      ResolvesIn(m, versions)
    }

    ghost predicate Valid()
      reads this
    {
      VersionsValid(versions, nextVersionId) &&
      HeadersValid(maps, versions) &&
      CatalogValid(catalog)
    }

    constructor ()
      ensures Valid() && maps == map[] && versions == map[] && catalog == map[]
    {
      maps, versions, catalog, nextVersionId := map[], map[], map[], 0;
    }
  }

  /** Every version is stored under its own key, with an id the counter has already handed out. */
  ghost predicate VersionsValid(versions: map<VersionKey, MapVersion>, nextVersionId: nat) {
    forall k :: k in versions ==> versions[k].key == k && k.id < nextVersionId
  }

  /** A header's version reference, once set, names a stored version of that same map. */
  ghost predicate ResolvesIn(m: MapRecord, versions: map<VersionKey, MapVersion>) {
    m.currentVersion.Some? ==>
      m.currentVersion.value in versions && m.currentVersion.value.mapId == m.id
  }

  /** Every header is stored under its own id and its version reference resolves. */
  ghost predicate HeadersValid(maps: map<string, MapRecord>, versions: map<VersionKey, MapVersion>) {
    forall id :: id in maps ==> maps[id].id == id && ResolvesIn(maps[id], versions)
  }

  /** Storing a header whose reference resolves keeps the headers valid. */
  lemma PutHeader(maps: map<string, MapRecord>, versions: map<VersionKey, MapVersion>, m: MapRecord)
    requires HeadersValid(maps, versions) && ResolvesIn(m, versions)
    ensures HeadersValid(maps[m.id := m], versions)
  {
  }

  /** Every catalog entity is stored under its own `domain:label` key, and no stored domain holds a colon. */
  ghost predicate CatalogValid(catalog: map<string, CatalogRecord>) {
    forall k :: k in catalog ==>
      k == EntryKey(catalog[k].domain, catalog[k].entryLabel) && ':' !in catalog[k].domain
  }

  /**
   * The transaction of PutNewVersion: storing a version under the next id
   * and a header that points at it keeps versions and headers valid.
   */
  lemma PutVersion(maps: map<string, MapRecord>, versions: map<VersionKey, MapVersion>, nextVersionId: nat,
                   m: MapRecord, json: string)
    requires VersionsValid(versions, nextVersionId) && HeadersValid(maps, versions)
    requires m.currentVersion == Some(VersionKey(m.id, nextVersionId))
    ensures VersionKey(m.id, nextVersionId) !in versions
    ensures var k := VersionKey(m.id, nextVersionId);
      VersionsValid(versions[k := MapVersion(k, json)], nextVersionId + 1) &&
      HeadersValid(maps[m.id := m], versions[k := MapVersion(k, json)])
  {
    var k := VersionKey(m.id, nextVersionId);
    var vs := versions[k := MapVersion(k, json)];
    forall id | id in maps
      ensures ResolvesIn(maps[id], vs)
    {
    }
  }

  /** Versions are immutable and never removed: every old version is still there, unchanged. */
  ghost predicate VersionsKept(before: map<VersionKey, MapVersion>, after: map<VersionKey, MapVersion>) {
    forall k :: k in before ==> k in after && after[k] == before[k]
  }
}
