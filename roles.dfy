/**
 * The closed set of access roles and the scope each one applies to
 * (the Role constants of model.py).
 */
module Roles {
  import opened Base

  datatype Role =
    | Admin          // global: view, edit or change permissions for anything
    | CatalogEditor  // per domain: edit the catalog of a domain
    | MapCreator     // per domain: create new maps
    | MapOwner       // per map: change the permissions of a map
    | MapEditor      // per map: save new versions of a map
    | MapViewer      // per map: view the current version of a map

  /** The string constant under which the source names each role. */
  function Name(r: Role): string {
    match r
    case Admin => "ADMIN"
    case CatalogEditor => "CATALOG_EDITOR"
    case MapCreator => "MAP_CREATOR"
    case MapOwner => "MAP_OWNER"
    case MapEditor => "MAP_EDITOR"
    case MapViewer => "MAP_VIEWER"
  }

  /** Recognises a role constant; any other string names no role. */
  function Parse(s: string): (r: Option<Role>)
    ensures r.Some? ==> Name(r.value) == s
    ensures r.None? ==> forall role :: Name(role) != s
  {
    if s == "ADMIN" then Some(Admin)
    else if s == "CATALOG_EDITOR" then Some(CatalogEditor)
    else if s == "MAP_CREATOR" then Some(MapCreator)
    else if s == "MAP_OWNER" then Some(MapOwner)
    else if s == "MAP_EDITOR" then Some(MapEditor)
    else if s == "MAP_VIEWER" then Some(MapViewer)
    else None
  }

  lemma ParseName(r: Role)
    ensures Parse(Name(r)) == Some(r)
  {
  }

  /** Roles whose target is a domain name. */
  predicate IsDomainRole(r: Role) {
    r == CatalogEditor || r == MapCreator
  }

  /** Roles whose target is a map. */
  predicate IsMapRole(r: Role) {
    r == MapOwner || r == MapEditor || r == MapViewer
  }
}
