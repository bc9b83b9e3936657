/**
 * The catalog: (domain, label)-keyed pointers to one fixed map version,
 * stored under the key name `domain:label`, and the EmptyCatalogEntry
 * sentinel served under the label "empty" in every domain.
 */
module Catalog {
  import opened Base
  import opened Roles
  import opened Entities
  import opened Access
  import opened Store
  import opened Maps

  /** The label reserved in every domain for the sentinel entry. */
  const EmptyLabel := "empty"

  /** In a key built from a colon-free domain, the first colon sits right after the domain. */
  lemma FirstColon(domain: string, entryLabel: string)
    requires ':' !in domain
    ensures |EntryKey(domain, entryLabel)| > |domain|
    ensures EntryKey(domain, entryLabel)[|domain|] == ':'
    ensures EntryKey(domain, entryLabel)[..|domain|] == domain
    ensures EntryKey(domain, entryLabel)[|domain| + 1..] == entryLabel
  {
  }

  /** Distinct (domain, label) pairs with colon-free domains get distinct key names. */
  lemma EntryKeyInjective(d1: string, l1: string, d2: string, l2: string)
    requires ':' !in d1 && ':' !in d2
    requires EntryKey(d1, l1) == EntryKey(d2, l2)
    ensures d1 == d2 && l1 == l2
  {
    FirstColon(d1, l1);
    FirstColon(d2, l2);
  }

  /** Without the colon check two different pairs would share one key name. */
  lemma EntryKeyCollision()
    ensures EntryKey("a:b", "c") == EntryKey("a", "b:c")
  {
  }

  /**
   * CatalogEntryModel.Get: the entity stored under `domain:label`, if any;
   * for a colon-free domain it is the entity of exactly that pair.
   */
  function ModelGet(catalog: map<string, CatalogRecord>, domain: string, entryLabel: string): (r: Option<CatalogRecord>)
    requires CatalogValid(catalog)
    ensures r.Some? <==> EntryKey(domain, entryLabel) in catalog
    ensures r.Some? && ':' !in domain ==> r.value.domain == domain && r.value.entryLabel == entryLabel
  {
    var key := EntryKey(domain, entryLabel);
    if key in catalog then
      var rec := catalog[key];
      if ':' in domain then Some(rec)
      else
        EntryKeyInjective(rec.domain, rec.entryLabel, domain, entryLabel);
        Some(rec)
    else None
  }

  /** Storing one pair's entity leaves what every other colon-free pair looks up unchanged. */
  lemma PutLeavesOtherPairs(catalog: map<string, CatalogRecord>, rec: CatalogRecord, domain: string, entryLabel: string)
    requires CatalogValid(catalog) && ':' !in rec.domain && ':' !in domain
    requires (domain, entryLabel) != (rec.domain, rec.entryLabel)
    ensures CatalogValid(catalog[EntryKey(rec.domain, rec.entryLabel) := rec])
    ensures ModelGet(catalog[EntryKey(rec.domain, rec.entryLabel) := rec], domain, entryLabel) ==
            ModelGet(catalog, domain, entryLabel)
  {
    if EntryKey(domain, entryLabel) == EntryKey(rec.domain, rec.entryLabel) {
      EntryKeyInjective(domain, entryLabel, rec.domain, rec.entryLabel);
    }
  }

  /** After storing an entity, looking its pair up finds exactly that entity. */
  lemma PutThenGet(catalog: map<string, CatalogRecord>, rec: CatalogRecord)
    requires CatalogValid(catalog) && ':' !in rec.domain
    ensures CatalogValid(catalog[EntryKey(rec.domain, rec.entryLabel) := rec])
    ensures ModelGet(catalog[EntryKey(rec.domain, rec.entryLabel) := rec], rec.domain, rec.entryLabel) == Some(rec)
  {
  }

  /**
   * CatalogEntryModel.Create: builds the entity for the map's current
   * version (GetCurrent's access check applies; a map with no version
   * fails on the missing key) and stores it under `domain:label`.
   */
  method ModelCreate(env: Env, db: Datastore, domain: string, entryLabel: string, m: Map, isListed: bool)
    returns (r: Result<CatalogRecord>)
    requires db.Valid() && m.Valid(db) && ':' !in domain
    modifies db`catalog
    ensures db.Valid()
    ensures r.Err? ==> unchanged(db)
    ensures old(m.GetCurrent(env, db)).Err? ==> r == Err(old(m.GetCurrent(env, db)).error)
    ensures old(m.GetCurrent(env, db)) == Ok(None) ==> r == Err(NoCurrentVersion)
    ensures old(m.GetCurrent(env, db)).Ok? && old(m.GetCurrent(env, db)).value.Some? ==>
      r == Ok(CatalogRecord(domain, entryLabel, m.model.title, m.model.id,
                            Some(old(m.GetCurrent(env, db)).value.value.key), isListed)) &&
      db.catalog == old(db.catalog)[EntryKey(domain, entryLabel) := r.value]
  {
    var current := m.GetCurrent(env, db);
    if current.Err? {
      return Err(current.error);
    }
    if current.value.None? {
      return Err(NoCurrentVersion);
    }
    var rec := CatalogRecord(domain, entryLabel, m.model.title, m.model.id, Some(current.value.value.key), isListed);
    db.catalog := db.catalog[EntryKey(domain, entryLabel) := rec];
    r := Ok(rec);
  }

  class CatalogEntry {
    var model: CatalogRecord
    /** True for the EmptyCatalogEntry sentinel, whose SetMapVersion and Put raise TypeError. */
    const readOnly: bool

    ghost predicate Valid()
      reads this
    {
      (readOnly ==> model == EmptyEntryRecord(model.domain)) &&
      (!readOnly ==> ':' !in model.domain)
    }

    constructor Wrap(rec: CatalogRecord)
      ensures model == rec && !readOnly
    {
      model := rec;
      readOnly := false;
    }

    /** EmptyCatalogEntry: points at the empty map "0" and at no stored version. */
    constructor Empty(domain: string)
      ensures model == EmptyEntryRecord(domain) && readOnly
    {
      model := EmptyEntryRecord(domain);
      readOnly := true;
    }

    /**
     * CatalogEntry.Get: the label "empty" yields the sentinel without
     * consulting the store; otherwise the stored entry, if any. There is no
     * access check: every entry is public.
     */
    static method Get(db: Datastore, domain: string, entryLabel: string) returns (r: Option<CatalogEntry>)
      requires db.Valid()
      ensures entryLabel == EmptyLabel ==>
        r.Some? && fresh(r.value) && r.value.readOnly && r.value.model == EmptyEntryRecord(domain)
      ensures entryLabel != EmptyLabel ==> (r.Some? <==> ModelGet(db.catalog, domain, entryLabel).Some?)
      ensures entryLabel != EmptyLabel && r.Some? ==>
        fresh(r.value) && !r.value.readOnly && r.value.model == ModelGet(db.catalog, domain, entryLabel).value
      ensures r.Some? ==> r.value.Valid()
    {
      if entryLabel == EmptyLabel {
        var e := new CatalogEntry.Empty(domain);
        return Some(e);
      }
      var rec := ModelGet(db.catalog, domain, entryLabel);
      if rec.None? {
        return None;
      }
      var e := new CatalogEntry.Wrap(rec.value);
      r := Some(e);
    }

    /**
     * CatalogEntry.Create: rejects a domain with a colon, demands
     * CATALOG_EDITOR in the domain, stores (or overwrites) the entry for the
     * map's current version and drops the four cached lists it appears in.
     */
    static method Create(env: Env, db: Datastore, cache: Cache, domain: string, entryLabel: string, m: Map, isListed: bool)
      returns (r: Result<CatalogEntry>)
      requires db.Valid() && m.Valid(db) && cache.Valid()
      modifies db`catalog, cache
      ensures db.Valid() && cache.Valid()
      ensures r.Err? ==> unchanged(db, cache)
      ensures ':' in domain ==> r == Err(InvalidDomain(domain))
      ensures ':' !in domain && !HasRoleCatalogEditor(env, env.currentUser, domain) ==>
        r == Err(AuthorizationError(env.currentUser, Name(CatalogEditor), DomainName(domain)))
      ensures ':' !in domain && HasRoleCatalogEditor(env, env.currentUser, domain) ==>
        var current := old(m.GetCurrent(env, db));
        && (current.Err? ==> r == Err(current.error))
        && (current == Ok(None) ==> r == Err(NoCurrentVersion))
        && (current.Ok? && current.value.Some? ==>
              && r.Ok? && fresh(r.value) && !r.value.readOnly && r.value.Valid()
              && r.value.model == CatalogRecord(domain, entryLabel, m.model.title, m.model.id,
                                                Some(current.value.value.key), isListed)
              && db.catalog == old(db.catalog)[EntryKey(domain, entryLabel) := r.value.model]
              && cache.entries == old(cache.entries) - CatalogListKeys(domain))
    {
      if ':' in domain {
        return Err(InvalidDomain(domain));
      }
      var access := AssertAccess(env, Name(CatalogEditor), DomainName(domain), None);
      if access.Fail? {
        return Err(access.error);
      }
      var rec := ModelCreate(env, db, domain, entryLabel, m, isListed);
      if rec.Err? {
        return Err(rec.error);
      }
      DropLists(cache, domain);
      var e := new CatalogEntry.Wrap(rec.value);
      r := Ok(e);
    }

    /**
     * CatalogEntry.Delete: demands CATALOG_EDITOR in the domain, fails on
     * a missing entry, otherwise removes it and drops the four cached lists.
     */
    static method Delete(env: Env, db: Datastore, cache: Cache, domain: string, entryLabel: string) returns (r: Outcome)
      requires db.Valid() && cache.Valid()
      modifies db`catalog, cache
      ensures db.Valid() && cache.Valid()
      ensures r.Fail? ==> unchanged(db, cache)
      ensures !HasRoleCatalogEditor(env, env.currentUser, domain) ==>
        r == Fail(AuthorizationError(env.currentUser, Name(CatalogEditor), DomainName(domain)))
      ensures HasRoleCatalogEditor(env, env.currentUser, domain) && EntryKey(domain, entryLabel) !in old(db.catalog) ==>
        r == Fail(NoSuchEntry(domain, entryLabel))
      ensures r.Pass? <==> HasRoleCatalogEditor(env, env.currentUser, domain) && EntryKey(domain, entryLabel) in old(db.catalog)
      ensures r.Pass? ==>
        && db.catalog == old(db.catalog) - {EntryKey(domain, entryLabel)}
        && ModelGet(db.catalog, domain, entryLabel).None?
        && cache.entries == old(cache.entries) - CatalogListKeys(domain)
    {
      r := AssertAccess(env, Name(CatalogEditor), DomainName(domain), None);
      if r.Fail? {
        return;
      }
      if ModelGet(db.catalog, domain, entryLabel).None? {
        return Fail(NoSuchEntry(domain, entryLabel));
      }
      db.catalog := db.catalog - {EntryKey(domain, entryLabel)};
      DropLists(cache, domain);
    }

    /**
     * SetMapVersion: repoints the entry (in memory only) at the map's
     * current version. The map id is assigned before GetCurrent runs, so a
     * failing GetCurrent leaves that one field changed.
     */
    method SetMapVersion(env: Env, db: Datastore, m: Map) returns (r: Outcome)
      requires db.Valid() && m.Valid(db) && Valid()
      modifies this
      ensures Valid()
      ensures readOnly ==> r == Fail(ReadOnly) && model == old(model)
      ensures !readOnly && m.GetCurrent(env, db).Err? ==>
        r == Fail(m.GetCurrent(env, db).error) && model == old(model).(mapId := m.model.id)
      ensures !readOnly && m.GetCurrent(env, db) == Ok(None) ==>
        r == Fail(NoCurrentVersion) && model == old(model).(mapId := m.model.id)
      ensures !readOnly && m.GetCurrent(env, db).Ok? && m.GetCurrent(env, db).value.Some? ==>
        r == Pass &&
        model == old(model).(mapId := m.model.id, mapVersion := Some(m.GetCurrent(env, db).value.value.key),
                             title := m.model.title)
    {
      if readOnly {
        return Fail(ReadOnly);
      }
      model := model.(mapId := m.model.id);
      var current := m.GetCurrent(env, db);
      if current.Err? {
        return Fail(current.error);
      }
      if current.value.None? {
        return Fail(NoCurrentVersion);
      }
      model := model.(mapVersion := Some(current.value.value.key));
      model := model.(title := m.model.title);
      r := Pass;
    }

    /**
     * Put: demands CATALOG_EDITOR in the entry's domain, stores the entry
     * and drops the four cached lists and the entry's cached JSON.
     */
    method Put(env: Env, db: Datastore, cache: Cache) returns (r: Outcome)
      requires db.Valid() && cache.Valid() && Valid()
      modifies db`catalog, cache
      ensures db.Valid() && cache.Valid()
      ensures r.Fail? ==> unchanged(db, cache)
      ensures readOnly ==> r == Fail(ReadOnly)
      ensures !readOnly && !HasRoleCatalogEditor(env, env.currentUser, model.domain) ==>
        r == Fail(AuthorizationError(env.currentUser, Name(CatalogEditor), DomainName(model.domain)))
      ensures r.Pass? <==> !readOnly && HasRoleCatalogEditor(env, env.currentUser, model.domain)
      ensures r.Pass? ==>
        && db.catalog == old(db.catalog)[EntryKey(model.domain, model.entryLabel) := model]
        && ModelGet(db.catalog, model.domain, model.entryLabel) == Some(model)
        && cache.entries == old(cache.entries) - CatalogListKeys(model.domain) - {CatalogJson(model.domain, model.entryLabel)}
    {
      if readOnly {
        return Fail(ReadOnly);
      }
      var domain := model.domain;
      r := AssertAccess(env, Name(CatalogEditor), DomainName(domain), None);
      if r.Fail? {
        return;
      }
      PutThenGet(db.catalog, model);
      db.catalog := db.catalog[EntryKey(domain, model.entryLabel) := model];
      DropLists(cache, domain);
      cache.Delete(CatalogJson(domain, model.entryLabel));
    }
  }

  /** The four cache.Delete calls every catalog write ends with. */
  method DropLists(cache: Cache, domain: string)
    requires cache.Valid()
    modifies cache
    ensures cache.Valid() && cache.entries == old(cache.entries) - CatalogListKeys(domain)
    ensures forall k :: k in CatalogListKeys(domain) ==> k !in cache.entries
  {
    cache.Delete(CatalogList(AllDomains, "all"));
    cache.Delete(CatalogList(AllDomains, "listed"));
    cache.Delete(CatalogList(domain, "all"));
    cache.Delete(CatalogList(domain, "listed"));
  }
}
