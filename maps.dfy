/**
 * The Map wrapper: a permission-guarded header record with its version
 * history, and the EmptyMap sentinel served under id "0". Every public
 * operation checks access before it changes anything.
 */
module Maps {
  import opened Base
  import opened Roles
  import opened Users
  import opened Entities
  import opened Access
  import opened Store
  import opened PermissionLists

  /** The top-level string fields of parsed MapRoot JSON. */
  type Fields = map<string, string>

  /** json.loads: the fields of the content, or None when it is not valid JSON. */
  type Parser = string -> Option<Fields>

  /** `maproot.get(name, '')` */
  function FieldOr(f: Fields, name: string): string {
    if name in f then f[name] else ""
  }

  /** The three map roles, in the order ChangePermissionLevel revokes them. */
  const Permissions: seq<Role> := [MapViewer, MapEditor, MapOwner]

  /** The version content GetCurrent yields: its JSON, or None when no version is set. */
  function ContentOf(v: Option<MapVersion>): Option<string> {
    if v.Some? then Some(v.value.maprootJson) else None
  }

  class Map {
    var model: MapRecord
    /** True for the EmptyMap sentinel, whose mutating methods raise TypeError. */
    const readOnly: bool

    ghost predicate Valid(db: Datastore)
      reads this, db
    {
      (readOnly ==> model == EmptyMapRecord()) && db.Resolves(model)
    }

    constructor Wrap(header: MapRecord)
      ensures model == header && !readOnly
    {
      model := header;
      readOnly := false;
    }

    /** EmptyMap: a world-readable header with id "0" and empty permission lists. */
    constructor Empty()
      ensures model == EmptyMapRecord() && readOnly
    {
      model := EmptyMapRecord();
      readOnly := true;
    }

    /**
     * GetCurrent: the sentinel yields its fixed version unchecked; any other
     * map demands MAP_VIEWER and then yields its current version, if set.
     */
    function GetCurrent(env: Env, db: Datastore): (r: Result<Option<MapVersion>>)
      reads this, db
      requires db.Valid() && Valid(db)
      ensures readOnly ==> r == Ok(Some(EmptyVersion()))
      ensures !readOnly && !HasRoleMapViewer(env, env.currentUser, model) ==>
        r == Err(AuthorizationError(env.currentUser, Name(MapViewer), MapTarget(model)))
      ensures !readOnly && HasRoleMapViewer(env, env.currentUser, model) ==>
        r.Ok? && (r.value.Some? <==> model.currentVersion.Some?)
      ensures !readOnly && r.Ok? && r.value.Some? ==>
        r.value.value == db.versions[model.currentVersion.value] &&
        r.value.value.key == model.currentVersion.value
    {
      if readOnly then Ok(Some(EmptyVersion()))
      else
        match AssertAccess(env, Name(MapViewer), MapTarget(model), None)
        case Fail(e) => Err(e)
        case Pass =>
          Ok(if model.currentVersion.Some? then Some(db.versions[model.currentVersion.value]) else None)
    }

    /**
     * GetVersion: the sentinel yields its fixed version for id 1 and nothing
     * for any other id, unchecked; any other map demands MAP_EDITOR and then
     * yields the version of this map stored under that id, if there is one.
     */
    function GetVersion(env: Env, db: Datastore, versionId: nat): (r: Result<Option<MapVersion>>)
      reads this, db
      requires db.Valid() && Valid(db)
      ensures readOnly ==> r == Ok(if versionId == 1 then Some(EmptyVersion()) else None)
      ensures !readOnly && !HasRoleMapEditor(env, env.currentUser, model) ==>
        r == Err(AuthorizationError(env.currentUser, Name(MapEditor), MapTarget(model)))
      ensures !readOnly && HasRoleMapEditor(env, env.currentUser, model) ==>
        r.Ok? && (r.value.Some? <==> VersionKey(model.id, versionId) in db.versions)
      ensures !readOnly && r.Ok? && r.value.Some? ==>
        r.value.value == db.versions[VersionKey(model.id, versionId)] &&
        r.value.value.key == VersionKey(model.id, versionId)
    {
      if readOnly then Ok(if versionId == 1 then Some(EmptyVersion()) else None)
      else
        match AssertAccess(env, Name(MapEditor), MapTarget(model), None)
        case Fail(e) => Err(e)
        case Pass =>
          var k := VersionKey(model.id, versionId);
          Ok(if k in db.versions then Some(db.versions[k]) else None)
    }

    /** A user who may edit a map finds its current version among its versions, by id. */
    lemma CurrentIsAVersion(env: Env, db: Datastore)
      requires db.Valid() && Valid(db)
      requires HasRoleMapEditor(env, env.currentUser, model) && model.currentVersion.Some?
      ensures GetVersion(env, db, model.currentVersion.value.id) == GetCurrent(env, db)
    {
    }

    /**
     * PutNewVersion: demands MAP_EDITOR, rejects content that does not
     * parse before touching anything, then stores the new version and the
     * header pointing at it in one transaction and drops the cached JSON.
     * Returns the new version's id.
     */
    method PutNewVersion(env: Env, parse: Parser, db: Datastore, cache: Cache, json: string) returns (r: Result<nat>)
      requires db.Valid() && Valid(db) && cache.Valid()
      modifies this, db, cache
      ensures db.Valid() && Valid(db) && cache.Valid()
      ensures r.Err? ==> unchanged(this, db, cache)
      ensures readOnly ==> r == Err(ReadOnly)
      ensures !readOnly && !HasRoleMapEditor(env, env.currentUser, old(model)) ==>
        r == Err(AuthorizationError(env.currentUser, Name(MapEditor), MapTarget(old(model))))
      ensures !readOnly && HasRoleMapEditor(env, env.currentUser, old(model)) && parse(json).None? ==>
        r == Err(InvalidJson)
      ensures r.Ok? <==> !readOnly && HasRoleMapEditor(env, env.currentUser, old(model)) && parse(json).Some?
      ensures r.Ok? ==>
        var k := VersionKey(model.id, r.value);
        && k !in old(db.versions)
        && db.versions == old(db.versions)[k := MapVersion(k, json)]
        && model == old(model).(title := FieldOr(parse(json).value, "title"),
                                description := FieldOr(parse(json).value, "description"),
                                currentVersion := Some(k))
        && db.maps == old(db.maps)[model.id := model]
        && db.catalog == old(db.catalog)
        && cache.entries == old(cache.entries) - {MapJson(model.id)}
    {
      if readOnly {
        r := Err(ReadOnly);
      } else {
        var access := AssertAccess(env, Name(MapEditor), MapTarget(model), None);
        var fields := if access.Pass? then parse(json) else None;
        if access.Fail? {
          r := Err(access.error);
        } else if fields.None? {
          r := Err(InvalidJson);
        } else {
          var k := VersionKey(model.id, db.nextVersionId);
          model := model.(title := FieldOr(fields.value, "title"),
                          description := FieldOr(fields.value, "description"),
                          currentVersion := Some(k));
          PutVersion(db.maps, db.versions, db.nextVersionId, model, json);
          // The transaction: the version and the header that now points at it.
          db.versions, db.maps, db.nextVersionId :=
            db.versions[k := MapVersion(k, json)], db.maps[model.id := model], db.nextVersionId + 1;
          cache.Delete(MapJson(model.id));
          r := Ok(k.id);
        }
      }
    }

    /** Delete: demands MAP_OWNER, then sets the tombstone and drops the cached JSON. */
    method Delete(env: Env, db: Datastore, cache: Cache) returns (r: Outcome)
      requires db.Valid() && Valid(db) && cache.Valid()
      modifies this, db`maps, cache
      ensures db.Valid() && Valid(db) && cache.Valid()
      ensures r.Fail? ==> unchanged(this, db, cache)
      ensures readOnly ==> r == Fail(ReadOnly)
      ensures !readOnly && !HasRoleMapOwner(env, env.currentUser, old(model)) ==>
        r == Fail(AuthorizationError(env.currentUser, Name(MapOwner), MapTarget(old(model))))
      ensures r.Pass? <==> !readOnly && HasRoleMapOwner(env, env.currentUser, old(model))
      ensures r.Pass? ==>
        && model == old(model).(isDeleted := true)
        && db.maps == old(db.maps)[model.id := model]
        && cache.entries == old(cache.entries) - {MapJson(model.id)}
    {
      if readOnly {
        return Fail(ReadOnly);
      }
      r := AssertAccess(env, Name(MapOwner), MapTarget(model), None);
      if r.Fail? {
        return;
      }
      model := model.(isDeleted := true);
      db.maps := db.maps[model.id := model];
      cache.Delete(MapJson(model.id));
    }

    /** SetWorldReadable: demands MAP_OWNER, then sets the flag and stores the header. */
    method SetWorldReadable(env: Env, db: Datastore, worldReadable: bool) returns (r: Outcome)
      requires db.Valid() && Valid(db)
      modifies this, db`maps
      ensures db.Valid() && Valid(db)
      ensures r.Fail? ==> unchanged(this, db)
      ensures readOnly ==> r == Fail(ReadOnly)
      ensures !readOnly && !HasRoleMapOwner(env, env.currentUser, old(model)) ==>
        r == Fail(AuthorizationError(env.currentUser, Name(MapOwner), MapTarget(old(model))))
      ensures r.Pass? <==> !readOnly && HasRoleMapOwner(env, env.currentUser, old(model))
      ensures r.Pass? ==>
        model == old(model).(worldReadable := worldReadable) && db.maps == old(db.maps)[model.id := model]
    {
      if readOnly {
        return Fail(ReadOnly);
      }
      r := AssertAccess(env, Name(MapOwner), MapTarget(model), None);
      if r.Fail? {
        return;
      }
      model := model.(worldReadable := worldReadable);
      db.maps := db.maps[model.id := model];
    }

    /**
     * RevokePermission: demands MAP_OWNER, then removes the address from the
     * list the role names (nothing for an absent address or another role)
     * and stores the header.
     */
    method RevokePermission(env: Env, db: Datastore, role: string, user: User) returns (r: Outcome)
      requires db.Valid() && Valid(db)
      modifies this, db`maps
      ensures db.Valid() && Valid(db)
      ensures r.Fail? ==> unchanged(this, db)
      ensures readOnly ==> r == Fail(ReadOnly)
      ensures !readOnly && !HasRoleMapOwner(env, env.currentUser, old(model)) ==>
        r == Fail(AuthorizationError(env.currentUser, Name(MapOwner), MapTarget(old(model))))
      ensures r.Pass? <==> !readOnly && HasRoleMapOwner(env, env.currentUser, old(model))
      ensures r.Pass? ==>
        model == Revoked(old(model), role, user.email) && db.maps == old(db.maps)[model.id := model]
    {
      if readOnly {
        return Fail(ReadOnly);
      }
      r := AssertAccess(env, Name(MapOwner), MapTarget(model), None);
      if r.Fail? {
        return;
      }
      model := Revoked(model, role, user.email);
      db.maps := db.maps[model.id := model];
    }

    /**
     * ChangePermissionLevel: demands MAP_OWNER; for a map role, puts the
     * address on that role's list and revokes the other two roles one by
     * one (each revocation re-checks MAP_OWNER); any other role changes
     * nothing.
     */
    method ChangePermissionLevel(env: Env, db: Datastore, role: string, user: User) returns (r: Outcome)
      requires db.Valid() && Valid(db)
      modifies this, db`maps
      ensures db.Valid() && Valid(db)
      ensures r.Fail? ==> unchanged(this, db)
      ensures readOnly ==> r == Fail(ReadOnly)
      ensures !readOnly && !HasRoleMapOwner(env, env.currentUser, old(model)) ==>
        r == Fail(AuthorizationError(env.currentUser, Name(MapOwner), MapTarget(old(model))))
      ensures r.Pass? <==> !readOnly && HasRoleMapOwner(env, env.currentUser, old(model))
      ensures r.Pass? && !(Parse(role).Some? && IsMapRole(Parse(role).value)) ==> unchanged(this, db)
      ensures r.Pass? && Parse(role).Some? && IsMapRole(Parse(role).value) ==>
        model == ChangedLevel(old(model), Parse(role).value, user.email) &&
        db.maps == old(db.maps)[model.id := model]
    {
      if readOnly {
        r := Fail(ReadOnly);
      } else {
        r := AssertAccess(env, Name(MapOwner), MapTarget(model), None);
        var target := Parse(role);
        if r.Pass? && target.Some? && IsMapRole(target.value) {
          Relevel(env, db, target.value, user);
        }
      }
    }

    /**
     * The body of ChangePermissionLevel once the owner check has passed
     * and the role is a map role: grant it, revoke viewer, editor, owner in
     * that order (skipping the role just granted) and store the header.
     * Owner comes last, so the MAP_OWNER check inside every revocation
     * still passes.
     */
    method Relevel(env: Env, db: Datastore, t: Role, user: User)
      requires db.Valid() && Valid(db) && !readOnly && IsMapRole(t)
      requires HasRoleMapOwner(env, env.currentUser, model)
      modifies this, db`maps
      ensures db.Valid() && Valid(db)
      ensures model == ChangedLevel(old(model), t, user.email)
      ensures db.maps == old(db.maps)[model.id := model]
    {
      GrantedKeepsOwner(env, model, t, user.email);
      model := Granted(model, t, user.email);
      ghost var g := model;
      for i := 0 to |Permissions|
        invariant Valid(db) && db.Valid()
        invariant model == RevokedUpTo(g, t, user.email, i)
        invariant i < |Permissions| ==> HasRoleMapOwner(env, env.currentUser, model)
        invariant AgreeExcept(db.maps, old(db.maps), g.id)
      {
        ghost var before := model;
        if Permissions[i] != t {
          var revoked := RevokePermission(env, db, Name(Permissions[i]), user);
          assert revoked.Pass?;
        }
        RevokedUpToStep(g, t, user.email, i, Permissions[i]);
        if i + 1 < |Permissions| {
          RevokedKeepsOwner(env, before, Permissions[i], user.email);
        }
      }
      RevokedAllIsChangedLevel(old(model), t, user.email);
      SameUpdate(db.maps, old(db.maps), model.id, model);
      PutHeader(db.maps, db.versions, model);
      db.maps := db.maps[model.id := model];
    }

    /**
     * GetCurrentJson: demands MAP_VIEWER; serves the cached JSON when there
     * is one, otherwise reads the current version's JSON and caches it.
     */
    method GetCurrentJson(env: Env, db: Datastore, cache: Cache) returns (r: Result<Option<string>>)
      requires db.Valid() && Valid(db) && cache.Valid()
      modifies cache
      ensures cache.Valid()
      ensures !HasRoleMapViewer(env, env.currentUser, model) ==>
        r == Err(AuthorizationError(env.currentUser, Name(MapViewer), MapTarget(model))) && unchanged(cache)
      ensures HasRoleMapViewer(env, env.currentUser, model) && MapJson(model.id) in old(cache.entries) ==>
        r == Ok(old(cache.entries)[MapJson(model.id)].text) && unchanged(cache)
      ensures HasRoleMapViewer(env, env.currentUser, model) && MapJson(model.id) !in old(cache.entries) ==>
        GetCurrent(env, db).Ok? && r == Ok(ContentOf(GetCurrent(env, db).value)) &&
        cache.entries == old(cache.entries)[MapJson(model.id) := JsonText(r.value)]
    {
      var access := AssertAccess(env, Name(MapViewer), MapTarget(model), None);
      if access.Fail? {
        return Err(access.error);
      }
      var key := MapJson(model.id);
      if key in cache.entries {
        return Ok(cache.entries[key].text);
      }
      var current := GetCurrent(env, db);
      var json := ContentOf(current.value);
      cache.Put(key, JsonText(json));
      r := Ok(json);
    }

    /**
     * Map.Get: id "0" is the EmptyMap sentinel; an unknown or deleted map is
     * absent; any other map demands MAP_VIEWER.
     */
    static method Get(env: Env, db: Datastore, keyName: string) returns (r: Result<Option<Map>>)
      requires db.Valid()
      ensures keyName == "0" ==>
        r.Ok? && r.value.Some? && fresh(r.value.value) && r.value.value.readOnly
      ensures keyName != "0" && (keyName !in db.maps || db.maps[keyName].isDeleted) ==> r == Ok(None)
      ensures keyName != "0" && keyName in db.maps && !db.maps[keyName].isDeleted &&
              !HasRoleMapViewer(env, env.currentUser, db.maps[keyName]) ==>
        r == Err(AuthorizationError(env.currentUser, Name(MapViewer), MapTarget(db.maps[keyName])))
      ensures keyName != "0" && keyName in db.maps && !db.maps[keyName].isDeleted &&
              HasRoleMapViewer(env, env.currentUser, db.maps[keyName]) ==>
        r.Ok? && r.value.Some? && fresh(r.value.value) && !r.value.value.readOnly &&
        r.value.value.model == db.maps[keyName]
      ensures r.Ok? && r.value.Some? ==> r.value.value.Valid(db)
    {
      if keyName == "0" {
        var m := new Map.Empty();
        return Ok(Some(m));
      }
      if keyName !in db.maps || db.maps[keyName].isDeleted {
        return Ok(None);
      }
      var m := new Map.Wrap(db.maps[keyName]);
      var access := AssertAccess(env, Name(MapViewer), MapTarget(m.model), None);
      if access.Fail? {
        return Err(access.error);
      }
      r := Ok(Some(m));
    }

    /**
     * Map.Create: demands MAP_CREATOR in the domain, builds the header
     * (owners default to the current user), then stores it together with
     * its first version through PutNewVersion.
     */
    static method Create(env: Env, parse: Parser, db: Datastore, cache: Cache, json: string, domain: string,
                         owners: Option<seq<string>>, editors: Option<seq<string>>, viewers: Option<seq<string>>,
                         domainRole: Option<Role>, worldReadable: bool, freshId: string)
      returns (r: Result<Map>)
      requires db.Valid() && cache.Valid()
      requires |freshId| == 16 && freshId !in db.maps
      modifies db, cache
      ensures db.Valid() && cache.Valid()
      ensures r.Err? ==> unchanged(db, cache)
      ensures !HasRoleMapCreator(env, env.currentUser, domain) ==>
        r == Err(AuthorizationError(env.currentUser, Name(MapCreator), DomainName(domain)))
      ensures HasRoleMapCreator(env, env.currentUser, domain) ==>
        var header := MapRecord(freshId, "", "", owners.GetOr([env.currentUser.value.email]),
                                editors.GetOr([]), viewers.GetOr([]), [domain], domainRole,
                                worldReadable, None, false);
        && (!HasRoleMapEditor(env, env.currentUser, header) ==>
              r == Err(AuthorizationError(env.currentUser, Name(MapEditor), MapTarget(header))))
        && (HasRoleMapEditor(env, env.currentUser, header) && parse(json).None? ==> r == Err(InvalidJson))
        && (HasRoleMapEditor(env, env.currentUser, header) && parse(json).Some? ==>
              && r.Ok? && fresh(r.value) && !r.value.readOnly && r.value.Valid(db)
              && r.value.model.currentVersion.Some?
              && r.value.model == header.(title := FieldOr(parse(json).value, "title"),
                                          description := FieldOr(parse(json).value, "description"),
                                          currentVersion := r.value.model.currentVersion)
              && db.maps == old(db.maps)[freshId := r.value.model]
              && r.value.model.currentVersion.value !in old(db.versions)
              && db.versions == old(db.versions)[r.value.model.currentVersion.value :=
                                                   MapVersion(r.value.model.currentVersion.value, json)]
              && db.catalog == old(db.catalog)
              && cache.entries == old(cache.entries) - {MapJson(freshId)})
    {
      var access := AssertAccess(env, Name(MapCreator), DomainName(domain), None);
      if access.Fail? {
        return Err(access.error);
      }
      var header := MapRecord(freshId, "", "", owners.GetOr([env.currentUser.value.email]),
                              editors.GetOr([]), viewers.GetOr([]), [domain], domainRole,
                              worldReadable, None, false);
      var m := new Map.Wrap(header);
      var put := m.PutNewVersion(env, parse, db, cache, json);
      if put.Err? {
        return Err(put.error);
      }
      r := Ok(m);
    }

    /** Two stores hold the same headers under every id but `k`. */
    static ghost predicate AgreeExcept(a: map<string, MapRecord>, b: map<string, MapRecord>, k: string) {
      forall x :: x != k ==> (x in a <==> x in b) && (x in a ==> a[x] == b[x])
    }

    /** Two stores that agree away from `k` are equal once `k` is set in both. */
    static lemma SameUpdate(a: map<string, MapRecord>, b: map<string, MapRecord>, k: string, v: MapRecord)
      requires AgreeExcept(a, b, k)
      ensures a[k := v] == b[k := v]
    {
    }

    /** Appending to a permission list never takes MAP_OWNER away from anyone. */
    static lemma GrantedKeepsOwner(env: Env, m: MapRecord, role: Role, email: string)
      requires IsMapRole(role) && HasRoleMapOwner(env, env.currentUser, m)
      ensures HasRoleMapOwner(env, env.currentUser, Granted(m, role, email))
    {
      assert forall e :: e in m.owners ==> e in Granted(m, role, email).owners;
    }

    /** Revoking anything but MAP_OWNER leaves the owners list, so MAP_OWNER stays. */
    static lemma RevokedKeepsOwner(env: Env, m: MapRecord, role: Role, email: string)
      requires (role == MapViewer || role == MapEditor) && HasRoleMapOwner(env, env.currentUser, m)
      ensures HasRoleMapOwner(env, env.currentUser, Revoked(m, Name(role), email))
    {
    }

    /** _GetAll: every map that is not deleted, with no access check. */
    static method AllLive(db: Datastore) returns (live: seq<MapRecord>)
      requires db.Valid()
      ensures forall m :: m in live ==> m.id in db.maps && db.maps[m.id] == m && !m.isDeleted
      ensures forall id :: id in db.maps && !db.maps[id].isDeleted ==> db.maps[id] in live
      ensures forall i, j :: 0 <= i < j < |live| ==> live[i].id != live[j].id
    {
      live := [];
      var todo := db.maps.Keys;
      while todo != {}
        invariant todo <= db.maps.Keys
        invariant forall m :: m in live ==> m.id in db.maps && db.maps[m.id] == m && !m.isDeleted && m.id !in todo
        invariant forall id :: id in db.maps && id !in todo && !db.maps[id].isDeleted ==> db.maps[id] in live
        invariant forall i, j :: 0 <= i < j < |live| ==> live[i].id != live[j].id
        decreases todo
      {
        var id :| id in todo;
        todo := todo - {id};
        if !db.maps[id].isDeleted {
          live := live + [db.maps[id]];
        }
      }
    }

    /** GetAll: demands ADMIN, then yields every live map. */
    static method GetAll(env: Env, db: Datastore) returns (r: Result<seq<MapRecord>>)
      requires db.Valid()
      ensures !HasRoleAdmin(env, env.currentUser) <==> r == Err(AuthorizationError(env.currentUser, Name(Admin), NoTarget))
      ensures r.Ok? ==>
        (forall m :: m in r.value ==> m.id in db.maps && db.maps[m.id] == m && !m.isDeleted) &&
        (forall id :: id in db.maps && !db.maps[id].isDeleted ==> db.maps[id] in r.value)
    {
      var access := AssertAccess(env, Name(Admin), NoTarget, None);
      if access.Fail? {
        return Err(access.error);
      }
      var live := AllLive(db);
      r := Ok(live);
    }

    /** GetViewable: the live maps the current user may view. */
    static method GetViewable(env: Env, db: Datastore) returns (viewable: seq<MapRecord>)
      requires db.Valid()
      ensures forall m :: m in viewable ==>
        m.id in db.maps && db.maps[m.id] == m && !m.isDeleted && HasRoleMapViewer(env, env.currentUser, m)
      ensures forall id :: id in db.maps && !db.maps[id].isDeleted && HasRoleMapViewer(env, env.currentUser, db.maps[id]) ==>
        db.maps[id] in viewable
    {
      var live := AllLive(db);
      var user := env.currentUser;
      viewable := [];
      for i := 0 to |live|
        invariant forall m :: m in viewable ==> m in live[..i] && HasRoleMapViewer(env, user, m)
        invariant forall j :: 0 <= j < i && HasRoleMapViewer(env, user, live[j]) ==> live[j] in viewable
      {
        if CheckAccess(env, Name(MapViewer), MapTarget(live[i]), user) == Ok(true) {
          viewable := viewable + [live[i]];
        }
      }
    }
  }
}
