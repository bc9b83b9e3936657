# googlecrisismap access control and map records, in Dafny

This project models the core of googlecrisismap's `model.py`:

- **The access engine.** The six roles and the `AccessPolicy` rules: ADMIN, CATALOG_EDITOR and MAP_CREATOR are global or per domain, and MAP_OWNER, MAP_EDITOR and MAP_VIEWER are per map. Also modelled are the global grants stored in Config under `global_roles:<email or domain>`, `CheckAccess` with its argument validation, and `AssertAccess`.
- **The records those checks guard.**
  - A `Map` is a header with owners, editors and viewers lists, a world-readable flag, a tombstone and a pointer to its current immutable version.
  - A `CatalogEntry` is a `(domain, label)`-keyed pointer to one fixed version.
  - The read-only sentinels are `EmptyMap` (id `"0"`) and `EmptyCatalogEntry` (label `"empty"`).

## How the source is represented

- **Ambient facts.** The signed-in user, the App Engine admin flag and the stored global grants form an explicit `Access.Env` value, read by every decision.
- **Datastore.** `Store.Datastore` is a class with one map per entity kind: headers by id, versions by `(map id, version id)` and catalog entities by `domain:label`. It also has the counter that hands out version ids. A datastore transaction is one simultaneous assignment.
- **Cache.** `Store.Cache` is a class holding a map from namespaced keys to values. Writes delete keys; reads fill them.
- **Config.** `Settings.Config` is a class with the durable values and the cache partition that `Config.Get` fills and `Config.Set` invalidates.
- **JSON parsing.** `json.loads` is a function parameter (`Maps.Parser`). It returns the top-level string fields of the content, or `None` for content that does not parse.
- **Fresh map ids.** The random 16-character map id is a parameter, required to be 16 characters long and unused.
- **Exceptions.** Each exception the source raises becomes a value of `Entities.Error`, returned in a `Result` or an `Outcome`:
  - `AuthorizationError` keeps its name;
  - `ValueError` becomes `InvalidTarget`, `InvalidRole`, `InvalidDomain` or `NoSuchEntry`;
  - the `ValueError` of `json.loads` on content that does not parse (model.py:800) becomes `InvalidJson`;
  - the `TypeError` of the read-only sentinels becomes `ReadOnly`;
  - the `TypeError` that `HasGlobalRole` raises for an address without '@' becomes `DomainlessUser`, but only in `Access.HasGlobalRoleAsWritten`: the gate and everything behind it use the corrected `Access.HasGlobalRole`, so they never produce it (see "## Findings");
  - the `AttributeError` on a missing version becomes `NoCurrentVersion`;
  - the `AttributeError` of `user.email()` when no user is known (model.py:217) becomes `NoUser`.
- **Sentinels.** `Maps.Map` and `Catalog.CatalogEntry` carry a `readOnly` flag that marks them. Their mutating methods fail with `ReadOnly` before any access check, as the overriding `ReadOnlyError` methods do.

## Model

| member | source | states |
|---|---|---|
| Roles.Parse | model.py:38-52 | a string names a role exactly when it is one of the six constants, and then it is that role's own name |
| Roles.ParseName | model.py:38-52 | every role's name parses back to that role |
| Users.AfterLast | model.py:153 | `split(c)[-1]`: the result has no `c`, is a suffix of the input, is preceded by `c` when the input has one, and is the whole input when it has none |
| Users.UserDomain | model.py:144-153 | a domain exists exactly for a signed-in user whose address has an '@'; the address is then `prefix + "@" + domain` with no '@' in the domain |
| Users.DomainOfAddress | model.py:153 | the domain of `local@domain` is `domain` whenever `domain` has no '@', whatever `local` holds |
| Settings.Config.Get | model.py:112-129 | a cached value is served if present; otherwise the stored value, or the default, which is then cached; a cached value never contradicts the stored one |
| Settings.Config.Set | model.py:132-141 | stores the value and deletes (never updates) the cached copy, keeping the cache coherent |
| Access.FetchGlobalRoles | model.py:190-201 | reading `global_roles:<subject>` through the Config cache yields exactly the stored grants, or `[]` when none are stored |
| Access.SetGlobalRoles | model.py:178-187 | after the write, the subject's grants read back as exactly the list written |
| Access.GetGlobalRoles | model.py:190-201 | the grants of a user or domain are the list stored under `global_roles:` followed by that subject, or no grants when nothing is stored |
| Access.HasGlobalRole | model.py:288-291 | corrected: the grant is among the address's own grants or, for an address with '@', among its domain's grants; an address without '@' holds exactly its own |
| Access.HasRoleAdmin | model.py:228-234 | ADMIN: a known user holding the global ADMIN grant, or the signed-in user whom App Engine marks as an app administrator |
| Access.HasRoleCatalogEditor | model.py:236-243 | CATALOG_EDITOR on a domain: a known user with the `[CATALOG_EDITOR, domain]` grant, the all-domains CATALOG_EDITOR grant, or ADMIN |
| Access.HasRoleMapCreator | model.py:245-250 | MAP_CREATOR on a domain: a known user with the `[MAP_CREATOR, domain]` grant, or ADMIN |
| Access.HasRoleMapOwner | model.py:252-260 | MAP_OWNER on a map: a known user listed among the owners, whose domain the map makes owner, with the global MAP_OWNER grant, or ADMIN |
| Access.HasRoleMapEditor | model.py:262-270 | MAP_EDITOR on a map: a known user listed among the editors, whose domain the map makes editor, with the global MAP_EDITOR grant, or MAP_OWNER |
| Access.HasRoleMapViewer | model.py:272-281 | MAP_VIEWER on a map: any user, anonymous included, when the map is world-readable; otherwise a known user listed among the viewers, whose domain the map makes viewer, with the global MAP_VIEWER grant, or MAP_EDITOR |
| Access.HasDomainRole | model.py:283-286 | a known user whose address has a domain, that domain among the map's domains, and the map's domain role equal to the requested role |
| Access.HasGlobalRoleAsWritten | model.py:288-291 | as written, the check fails exactly when the address has no '@' and the address's own grants lack the role; otherwise it returns the corrected answer |
| Access.CheckAccess | model.py:294-342 | on the corrected HasGlobalRole, the dispatch order of the source: ADMIN; the domain roles with a domain target; the map roles with a map target; InvalidTarget and InvalidRole otherwise; each valid case is exactly the matching policy rule for `user or current user` |
| Access.AssertAccess | model.py:345-363 | passes exactly when CheckAccess returns true; a false check becomes AuthorizationError naming the effective user, the role and the target; argument errors pass through |
| Access.GetDomainsWithRole | model.py:204-222 | fails exactly when no user is known; otherwise a domain is reported exactly when the user or the user's domain holds the `[role, domain]` grant |
| PolicyProperties.MapRolesImpliedDownward | model.py:252-281 | MAP_OWNER implies MAP_EDITOR implies MAP_VIEWER, for every user and map |
| PolicyProperties.CheckedMapRolesImpliedDownward | model.py:252-281 | the same downward implication for the checks CheckAccess performs |
| PolicyProperties.WorldReadableViewable | model.py:272-281 | a world-readable map grants MAP_VIEWER to anyone, the anonymous user included |
| PolicyProperties.AnonymousHasNoOtherRole | model.py:228-281 | the anonymous user holds no ADMIN, CATALOG_EDITOR, MAP_CREATOR, MAP_OWNER or MAP_EDITOR |
| PolicyProperties.AnonymousCheck | model.py:294-342 | with no user at all, a check succeeds exactly for MAP_VIEWER on a world-readable map |
| PolicyProperties.AdminImpliesEveryRole | model.py:228-269 | ADMIN implies CATALOG_EDITOR and MAP_CREATOR for every domain, and MAP_OWNER, MAP_EDITOR and MAP_VIEWER for every map |
| PolicyProperties.AdminPassesEveryCheck | model.py:294-342 | a user whose ADMIN check succeeds passes every valid check on a target of the right kind |
| PolicyProperties.DomainRolePath | model.py:283-286 | the domain rule holds for `local@domain` exactly when `domain` is among the map's domains and the map's domain role is the requested role |
| PolicyProperties.DomainRoleIsExact | model.py:283-286 | a domain role grants no other role by itself: equality, not rank |
| PolicyProperties.DomainViewerScenario | model.py:272-286 | with only a MAP_VIEWER domain role for foo.com, any foo.com address may view the map and may not edit it |
| PolicyProperties.EditorScenario | model.py:252-281 | a user listed only as editor fails the owner check and passes the editor and viewer checks |
| PolicyProperties.EditorScenarioRaisesAsWritten | model.py:252-291 | in that scenario "editor" is not an owner and the map has no domains, so the owner rule reaches HasGlobalRole, which raises as written because the address "editor" has no '@' |
| PolicyProperties.HasGlobalRoleCorrected | model.py:288-291 | corrected: an address with '@' holds its own and its domain's grants, and an address without one holds exactly its own |
| PolicyProperties.CheckAccessArgumentErrors | model.py:314-342 | a domain role without a domain target, or a map role without a map target, is InvalidTarget; a string that names no role is an error, never a denial |
| PolicyProperties.DomainsWithRoleAreGranted | model.py:204-249 | a `[CATALOG_EDITOR, domain]` grant, as GetDomainsWithRole reports it, gives CATALOG_EDITOR on that domain |
| PermissionLists.RemoveFirst | model.py:860-872 | `list.remove`: exactly one occurrence of the address is removed when present (multiset difference), and nothing changes when it is absent |
| PermissionLists.Revoked | model.py:860-872 | only the list named by the role loses the address; an unknown role or an absent address changes nothing; no other header field changes |
| PermissionLists.Granted | model.py:881-889 | the address is in the target list afterwards, appended only if it was missing; the other lists and fields are unchanged |
| PermissionLists.ChangedLevel | model.py:874-895 | the net effect of ChangePermissionLevel: the address is in the target list, added once only if it was missing; each of the other two lists loses exactly one occurrence of it (multiset difference); no other header field changes |
| PermissionLists.RevokedUpToStep | model.py:891-894 | each turn of the revocation loop revokes the next role of viewer, editor, owner unless it is the one granted |
| PermissionLists.RevokedAllIsChangedLevel | model.py:874-895 | the grant followed by the whole loop is the list-by-list change ChangedLevel |
| PermissionLists.ChangedLevelPlacesEmail | model.py:874-895 | if each list held the address at most once, afterwards it is exactly once in the target list and in no other, and every other address keeps its counts |
| PermissionLists.RelistedCounts | model.py:874-895 | one list's share of that count: once in the target list, removed from the others, other addresses untouched |
| PermissionLists.ChangeThenRevokeRemoves | model.py:860-895 | revoking the role just given leaves the address in none of the three lists |
| PermissionLists.RevokeRemovesSoleEntry | model.py:860-872 | revoking removes an address held once from the named list and leaves the other two lists as they were |
| Store.EntryKey | model.py:525 | a catalog entity's key is the domain, a ':' and the label, and splits back into exactly those three parts |
| Store.PutHeader | model.py:402-454 | storing a header whose version reference resolves keeps every header keyed by its id and resolvable |
| Store.PutVersion | model.py:797-812 | the transaction stores the version under a key not used before and keeps versions and headers valid |
| Store.Cache.Put | model.py:836-840 | a miss stores the computed value under its key |
| Store.Cache.Delete | model.py:826-834 | the key is absent afterwards and no other entry changes |
| Maps.Map.Empty | model.py:906-937 | EmptyMap: the read-only header with id "0", the fixed title and description, no permission lists and world-readable; its mutators fail with ReadOnly and its GetCurrent yields the fixed version |
| Maps.Map.GetCurrent | model.py:814-824 | EmptyMap yields its fixed version with no check; otherwise MAP_VIEWER is demanded and the result is the stored current version, None exactly when no version is set |
| Maps.Map.GetVersion | model.py:848-852 | EmptyMap yields its fixed version for id 1 and nothing for any other id, with no check; otherwise MAP_EDITOR is demanded and the result is this map's version stored under that id, None exactly when there is none |
| Maps.Map.CurrentIsAVersion | model.py:814-852 | for a user who may edit the map, asking for the current version's id by GetVersion gives what GetCurrent gives |
| Maps.Map.PutNewVersion | model.py:797-812 | EmptyMap fails; then MAP_EDITOR is demanded, then unparsable content is rejected, all before any change; on success the new version is stored under a fresh id, the header points at it with title and description taken from the content (`''` when absent), and the map's cached JSON is dropped |
| Maps.Map.Delete | model.py:826-834 | owner check before any change; on success only the tombstone is set, the header is stored and the map's cached JSON is dropped |
| Maps.Map.SetWorldReadable | model.py:854-858 | owner check before any change; on success only the flag changes and the header is stored |
| Maps.Map.RevokePermission | model.py:860-872 | owner check before any change; on success the header becomes Revoked(header, role, email) and is stored |
| Maps.Map.ChangePermissionLevel | model.py:874-895 | owner check before any change; a string that is not a map role changes nothing; a map role turns the header into ChangedLevel(header, role, email) and stores it |
| Maps.Map.Relevel | model.py:883-895 | the grant, then revocations of viewer, editor, owner in that order, during which the caller stays an owner so that every inner owner check passes |
| Maps.Map.GetCurrentJson | model.py:836-840 | MAP_VIEWER is demanded; a cached JSON is served unchanged; on a miss the current version's JSON (None without a version) is served and cached |
| Maps.Map.Get | model.py:756-766 | id "0" is the read-only EmptyMap; an unknown or deleted map is absent; any other map demands MAP_VIEWER and wraps the stored header |
| Maps.Map.Create | model.py:769-790 | MAP_CREATOR in the domain is demanded; owners default to the current user and the other lists to `[]`; the header is then stored with its first version exactly when PutNewVersion would accept it, under the fresh id; on success exactly one new version (the given JSON, under an unused key) is added, the catalog is untouched and only the new map's JSON cache key is dropped |
| Maps.Map.GrantedKeepsOwner | model.py:883-889 | appending to a permission list never takes MAP_OWNER away |
| Maps.Map.RevokedKeepsOwner | model.py:891-894 | revoking viewer or editor never takes MAP_OWNER away |
| Maps.Map.AllLive | model.py:731-735 | the result holds exactly the stored headers that are not deleted, each once |
| Maps.Map.GetAll | model.py:738-741 | ADMIN is demanded; the result is then every live header |
| Maps.Map.GetViewable | model.py:744-753 | the result holds exactly the live headers the current user may view |
| Catalog.FirstColon | model.py:500 | in `domain:label` with a colon-free domain, the first colon follows the domain |
| Catalog.EntryKeyInjective | model.py:499-500 | colon-free domains make `domain:label` key names unique per pair |
| Catalog.EntryKeyCollision | model.py:614-615 | without the colon check, ("a:b", "c") and ("a", "b:c") would share a key name |
| Catalog.ModelGet | model.py:499-500 | an entity is found exactly when one is stored under `domain:label`, and for a colon-free domain it is the entity of exactly that pair |
| Catalog.PutLeavesOtherPairs | model.py:523-531 | storing one pair's entity changes what no other pair looks up |
| Catalog.PutThenGet | model.py:523-531 | after storing an entity, its pair looks up exactly that entity |
| Catalog.ModelCreate | model.py:523-531 | the entity records the map's title, id and current version key and is stored under `domain:label`; a denied GetCurrent, or a map with no version, stores nothing |
| Catalog.DropLists | model.py:620-623 | the four list partitions (all domains and this domain, all and listed) are absent afterwards; no other entry changes |
| Catalog.CatalogEntry.Empty | model.py:941-956 | EmptyCatalogEntry: a read-only entry labelled "empty" in the given domain, titled like the empty map and pointing at map "0"; SetMapVersion and Put fail with ReadOnly |
| Catalog.CatalogEntry.Get | model.py:549-558 | the label "empty" yields the read-only sentinel for that domain without reading the store; otherwise the stored entry if any, with no access check |
| Catalog.CatalogEntry.Create | model.py:598-624 | a domain with ':' is rejected, then CATALOG_EDITOR is demanded, then the map's current version is needed; on success the entry is stored, overwriting any entry of the same pair, and the four list partitions are dropped |
| Catalog.CatalogEntry.Delete | model.py:627-647 | CATALOG_EDITOR is demanded, then a missing entry is NoSuchEntry; on success the entry is gone and the four list partitions are dropped |
| Catalog.CatalogEntry.SetMapVersion | model.py:669-673 | the sentinel fails; otherwise the map id is set first, and only when GetCurrent yields a version are the version key and the title set too |
| Catalog.CatalogEntry.Put | model.py:675-685 | the sentinel fails; then CATALOG_EDITOR on the entry's domain is demanded; on success the entry is stored and the four list partitions and the entry's cached JSON are dropped |
| Scenarios.CreateThenServe | model.py:769-840 | a map creator who creates a map from parsable content is then served exactly that content |
| Scenarios.CreateTwiceOverwrites | model.py:598-624 | two Creates of one pair leave one entry under that pair: the second |

## Left out

- Access.GetDomainsWithRole: returns a set rather than `sorted(...)`, so the order of the list is not modelled.
- Access.GetDomainsWithRole: an address without '@' gets no domain grants, where the source raises TypeError (the same root cause as the finding below).
- Access.CheckAccess / Access.AssertAccess: decide on the corrected Access.HasGlobalRole. For an address without '@' whose own grants lack the role, they return a boolean (or AuthorizationError), where the source raises TypeError (model.py:288-291, see "## Findings"). Every check reached through Maps and Catalog inherits this.
- Maps.Map.AllLive, Maps.Map.GetAll, Maps.Map.GetViewable: the `-last_updated` order of model.py:733 is not modelled; the results are specified by which headers they hold.
- Strings are sequences of characters with no encoding. The `str(...)` conversions of domains (model.py:613, 637, 677) and of user addresses (model.py:863, 880) are identities here, so the UnicodeEncodeError they raise on non-ASCII input is not modelled.
- Malformed grant items are not modelled. The grant store holds typed grants: a bare role or a `[role, domain]` pair. The `isinstance(item, list)` filter therefore always applies.
- Maps.Parser: content that parses but is not a JSON object, and non-string `title` or `description` values, are folded into "does not parse".
- Maps.Map.Create: the random id generation (base64 of 12 random bytes) is replaced by a fresh 16-character id given as a parameter.
- `Map.get` (lowercase) is left out. It wraps a header by datastore key with no access check, and datastore keys are not modelled separately from map ids.
- `Map.GetVersions` is left out, because its result order (`-created`) depends on timestamps. Maps.Map.GetVersion returns the version record itself rather than the `StructFromModel` copy.
- `Map.__eq__` and `Map.__hash__` are left out: object identity is not modelled.
- `Map.CheckAccess` and `Map.AssertAccess` are modelled only through `Access.CheckAccess` and `Access.AssertAccess` on a map target.
- The catalog list reads are left out: `GetAll`, `GetListed`, `GetAllInDomain`, `GetListedInDomain`, `GetByMapId` and the `All*` queries. They are ordered by `-last_updated`, a timestamp. Their cache keys are modelled so that the writes can invalidate them.
- `CatalogEntry.GetMaprootJson` and the `is_listed` setter are left out.
- `SetInitialDomainRole` and `GetInitialDomainRole` are left out: they are Config reads and writes under another prefix, with no caller in the core.
- `DoAsAdmin` is left out. Switching identity is a change of `Env`.
- `StructFromModel`, `ResultIterator` and the `Struct` class are left out; they copy datastore properties reflectively.
- Timestamps and creator/updater fields (`auto_now`, `auto_current_user`) are not modelled.
- Version ids come from one counter per datastore. The source only promises uniqueness within a map.
- `metadata.py`, `list.py` and the JavaScript tests are not part of this model.

## Findings

| source | as written | input that shows it | evidently intended | confidence | as-written member | corrected member |
|---|---|---|---|---|---|---|
| model.py:288-291 | `HasGlobalRole` looks up `'global_roles:' + GetUserDomain(user)`; `GetUserDomain` returns `False` for an address without '@', and `str + bool` raises TypeError whenever the address's own grants do not already hold the role | the user `editor` (no '@') asking for MAP_OWNER on a map that lists `editor` only as editor, with no domains and no stored grants: `editor` is not among the owners and `domains == []`, so `HasRoleMapOwner` reaches `HasGlobalRole(user, MAP_OWNER)`, which raises instead of denying | an address without a domain holds only its own grants, and the check returns a boolean | not executed | Access.HasGlobalRoleAsWritten (shown by PolicyProperties.EditorScenarioRaisesAsWritten) | Access.HasGlobalRole (proved by PolicyProperties.HasGlobalRoleCorrected and PolicyProperties.EditorScenario) |
