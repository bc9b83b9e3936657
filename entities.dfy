/**
 * The records the access-control engine reads and guards: grants, map
 * headers, map versions and catalog entries, the targets of an access
 * check, the errors the core raises, and the two read-only sentinels.
 */
module Entities {
  import opened Base
  import opened Roles
  import opened Users

  /**
   * One item of a stored global-roles list: a bare role that applies to
   * every target, or a `[role, domain]` pair that applies to one domain.
   */
  datatype Grant = Global(role: Role) | ForDomain(role: Role, domain: string)

  /** A version of a map is addressed by its parent map and a numeric id. */
  datatype VersionKey = VersionKey(mapId: string, id: nat)

  /** An immutable snapshot of a map's JSON content (MapVersionModel). */
  datatype MapVersion = MapVersion(key: VersionKey, maprootJson: string)

  /** The header record of a map (MapModel); `id` is its key name. */
  datatype MapRecord = MapRecord(
    id: string,
    title: string,
    description: string,
    owners: seq<string>,
    editors: seq<string>,
    viewers: seq<string>,
    domains: seq<string>,
    domainRole: Option<Role>,
    worldReadable: bool,
    currentVersion: Option<VersionKey>,
    isDeleted: bool)

  /** A publication of one fixed map version under a (domain, label) pair (CatalogEntryModel). */
  datatype CatalogRecord = CatalogRecord(
    domain: string,
    entryLabel: string,  // the publication label (`label` is a Dafny keyword)
    title: string,
    mapId: string,
    mapVersion: Option<VersionKey>,
    isListed: bool)

  /** What an access check is asked about. */
  datatype Target =
    | NoTarget
    | DomainName(name: string)
    | MapTarget(header: MapRecord)
    | OtherTarget  // any other Python value

  /** Whether a target has the shape that a role requires. */
  predicate Fits(role: Role, target: Target) {
    (IsDomainRole(role) ==> target.DomainName?) &&
    (IsMapRole(role) ==> target.MapTarget?)
  }

  datatype Error =
    | AuthorizationError(user: Option<User>, role: string, target: Target)
    | InvalidTarget(role: string)                   // ValueError: target of the wrong shape
    | InvalidRole(role: string)                     // ValueError: not a Role constant
    | InvalidJson                                   // ValueError: content does not parse
    | InvalidDomain(domain: string)                 // ValueError: ':' in a catalog domain
    | NoSuchEntry(domain: string, entryLabel: string)    // ValueError: deleting a missing entry
    | ReadOnly                                      // TypeError: mutating a sentinel
    | NoCurrentVersion                              // AttributeError: GetCurrent() gave None
    | NoUser                                        // AttributeError: no user and nobody signed in
    | DomainlessUser                                // TypeError: 'global_roles:' + False

  datatype Result<+T> = Ok(value: T) | Err(error: Error)

  datatype Outcome = Pass | Fail(error: Error)

  // The sentinel map with id '0' and the sentinel catalog entry 'empty'.
  const EmptyTitle := "Empty map"
  const EmptyDescription := "This is an empty map for testing."
  const EmptyJson := "{\"title\": \"Empty map\", \"description\": \"This is an empty map for testing.\"}"

  function EmptyMapRecord(): MapRecord {
    MapRecord("0", EmptyTitle, EmptyDescription, [], [], [], [], None, true, None, false)
  }

  function EmptyVersion(): MapVersion {
    MapVersion(VersionKey("0", 1), EmptyJson)
  }

  function EmptyEntryRecord(domain: string): CatalogRecord {
    CatalogRecord(domain, "empty", EmptyTitle, "0", None, false)
  }
}
