/**
 * End-to-end sequences of the public operations: what a client observes
 * after creating a map, and after publishing the same catalog pair twice.
 */
module Scenarios {
  import opened Base
  import opened Roles
  import opened Users
  import opened Entities
  import opened Access
  import opened Store
  import opened Maps
  import opened Catalog
  import opened PolicyProperties

  /**
   * A map creator who creates a map with valid content (and default
   * owners) is then served exactly that content by GetCurrentJson.
   */
  method CreateThenServe(env: Env, parse: Parser, db: Datastore, cache: Cache, json: string, domain: string, freshId: string)
    returns (served: Result<Option<string>>)
    requires db.Valid() && cache.Valid()
    requires |freshId| == 16 && freshId !in db.maps
    requires HasRoleMapCreator(env, env.currentUser, domain) && parse(json).Some?
    modifies db, cache
    ensures served == Ok(Some(json))
  {
    var header := MapRecord(freshId, "", "", [env.currentUser.value.email], [], [], [domain], None, false, None, false);
    MapRolesImpliedDownward(env, env.currentUser, header);
    var created := Map.Create(env, parse, db, cache, json, domain, None, None, None, None, false, freshId);
    var m := created.value;
    MapRolesImpliedDownward(env, env.currentUser, m.model);
    served := m.GetCurrentJson(env, db, cache);
  }

  /**
   * Creating the same (domain, label) pair twice leaves one entry under
   * that pair: the second one.
   */
  method CreateTwiceOverwrites(env: Env, db: Datastore, cache: Cache, domain: string, entryLabel: string,
                               first: Map, second: Map)
    returns (r1: Result<CatalogEntry>, r2: Result<CatalogEntry>)
    requires db.Valid() && cache.Valid() && first.Valid(db) && second.Valid(db)
    modifies db`catalog, cache
    ensures db.Valid()
    ensures r1.Ok? && r2.Ok? ==>
      ModelGet(db.catalog, domain, entryLabel) == Some(r2.value.model) &&
      r2.value.model.mapId == second.model.id &&
      db.catalog.Keys == old(db.catalog.Keys) + {EntryKey(domain, entryLabel)}
  {
    r1 := CatalogEntry.Create(env, db, cache, domain, entryLabel, first, false);
    r2 := CatalogEntry.Create(env, db, cache, domain, entryLabel, second, true);
    if r1.Ok? && r2.Ok? {
      PutThenGet(old(db.catalog)[EntryKey(domain, entryLabel) := r1.value.model], r2.value.model);
    }
  }
}
