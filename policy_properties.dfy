/**
 * What the access policy promises: the map roles are implied downward,
 * ADMIN implies every role, an anonymous user can only view world-readable
 * maps, the domain-role path needs an exact role match, and the argument
 * checks of CheckAccess.
 */
module PolicyProperties {
  import opened Base
  import opened Roles
  import opened Users
  import opened Entities
  import opened Access

  /** Each lower map rule ORs in the next higher one: owner, then editor, then viewer. */
  lemma MapRolesImpliedDownward(env: Env, u: Option<User>, m: MapRecord)
    ensures HasRoleMapOwner(env, u, m) ==> HasRoleMapEditor(env, u, m)
    ensures HasRoleMapEditor(env, u, m) ==> HasRoleMapViewer(env, u, m)
  {
  }

  /** The same implication, seen through the gate. */
  lemma CheckedMapRolesImpliedDownward(env: Env, m: MapRecord, user: Option<User>)
    ensures CheckAccess(env, "MAP_OWNER", MapTarget(m), user) == Ok(true) ==>
      CheckAccess(env, "MAP_EDITOR", MapTarget(m), user) == Ok(true)
    ensures CheckAccess(env, "MAP_EDITOR", MapTarget(m), user) == Ok(true) ==>
      CheckAccess(env, "MAP_VIEWER", MapTarget(m), user) == Ok(true)
  {
    MapRolesImpliedDownward(env, Effective(env, user), m);
  }

  /** A world-readable map may be viewed by anyone, signed in or not. */
  lemma WorldReadableViewable(env: Env, u: Option<User>, m: MapRecord)
    requires m.worldReadable
    ensures HasRoleMapViewer(env, u, m)
  {
  }

  /** Every rule except world-readability starts with `user and`. */
  lemma AnonymousHasNoOtherRole(env: Env, m: MapRecord, domain: string)
    ensures !HasRoleAdmin(env, None)
    ensures !HasRoleCatalogEditor(env, None, domain)
    ensures !HasRoleMapCreator(env, None, domain)
    ensures !HasRoleMapOwner(env, None, m)
    ensures !HasRoleMapEditor(env, None, m)
    ensures HasRoleMapViewer(env, None, m) <==> m.worldReadable
  {
  }

  /** Through the gate: with nobody to check, only viewing a world-readable map is granted. */
  lemma AnonymousCheck(env: Env, role: string, target: Target, user: Option<User>)
    requires Effective(env, user).None?
    ensures CheckAccess(env, role, target, user) == Ok(true) <==>
      role == "MAP_VIEWER" && target.MapTarget? && target.header.worldReadable
  {
    if Parse(role).Some? {
      AnonymousHasNoOtherRole(env, if target.MapTarget? then target.header else EmptyMapRecord(),
                              if target.DomainName? then target.name else "");
    }
  }

  /** ADMIN implies every domain role and every map role. */
  lemma AdminImpliesEveryRole(env: Env, u: Option<User>, m: MapRecord, domain: string)
    requires HasRoleAdmin(env, u)
    ensures HasRoleCatalogEditor(env, u, domain)
    ensures HasRoleMapCreator(env, u, domain)
    ensures HasRoleMapOwner(env, u, m)
    ensures HasRoleMapEditor(env, u, m)
    ensures HasRoleMapViewer(env, u, m)
  {
  }

  /** A user who passes the ADMIN check passes every check whose target has the right shape. */
  lemma AdminPassesEveryCheck(env: Env, user: Option<User>, anyTarget: Target, role: string, target: Target)
    requires CheckAccess(env, "ADMIN", anyTarget, user) == Ok(true)
    requires Parse(role).Some? && Fits(Parse(role).value, target)
    ensures CheckAccess(env, role, target, user) == Ok(true)
  {
    AdminImpliesEveryRole(env, Effective(env, user),
                          if target.MapTarget? then target.header else EmptyMapRecord(),
                          if target.DomainName? then target.name else "");
  }

  /**
   * The domain-role path applies exactly when the text after the last '@'
   * is one of the map's domains and the map's domain role is the role asked for.
   */
  lemma DomainRolePath(local: string, domain: string, role: Role, m: MapRecord)
    requires '@' !in domain
    ensures HasDomainRole(Some(User(local + "@" + domain)), role, m) <==>
      domain in m.domains && m.domainRole == Some(role)
  {
    DomainOfAddress(local, domain);
  }

  /** A map role never matches the domain role of a different role. */
  lemma DomainRoleIsExact(u: Option<User>, role: Role, m: MapRecord)
    requires m.domainRole.Some? && m.domainRole.value != role
    ensures !HasDomainRole(u, role, m)
  {
  }

  /**
   * Domain `foo.com` has MAP_VIEWER on a map that lists it: anyone at
   * foo.com may view it, and without other grants may not edit it.
   */
  lemma DomainViewerScenario(env: Env, local: string, m: MapRecord)
    requires "foo.com" in m.domains && m.domainRole == Some(MapViewer)
    requires !m.worldReadable && m.owners == [] && m.editors == [] && m.viewers == []
    requires env.config == map[] && !env.currentUserIsAdmin
    ensures CheckAccess(env, "MAP_VIEWER", MapTarget(m), Some(User(local + "@foo.com"))) == Ok(true)
    ensures CheckAccess(env, "MAP_EDITOR", MapTarget(m), Some(User(local + "@foo.com"))) == Ok(false)
  {
    var u := User(local + "@foo.com");
    assert local + "@foo.com" == local + "@" + "foo.com";
    DomainOfAddress(local, "foo.com");
    assert GetGlobalRoles(env.config, u.email) == [] && DomainGrants(env, u) == [];
    assert HasRoleMapViewer(env, Some(u), m);
    assert !HasRoleMapEditor(env, Some(u), m);
  }

  /**
   * A map owned by `owner` lists `editor` as an editor; signed in as
   * `editor`, the owner check fails and the editor check passes.
   */
  lemma EditorScenario(env: Env, m: MapRecord)
    requires m.owners == ["owner"] && m.editors == ["editor"] && m.viewers == []
    requires m.domains == [] && !m.worldReadable
    requires env == Env(Some(User("editor")), false, map[])
    ensures CheckAccess(env, "MAP_OWNER", MapTarget(m), None) == Ok(false)
    ensures CheckAccess(env, "MAP_EDITOR", MapTarget(m), None) == Ok(true)
    ensures CheckAccess(env, "MAP_VIEWER", MapTarget(m), None) == Ok(true)
  {
  }

  /**
   * The owner check of EditorScenario, evaluated as model.py writes
   * HasGlobalRole, raises TypeError: "editor" is not an owner and the map
   * has no domains, so the rule reaches HasGlobalRole, and "editor" has no '@'.
   */
  lemma EditorScenarioRaisesAsWritten(env: Env, m: MapRecord)
    requires m.owners == ["owner"] && m.editors == ["editor"] && m.viewers == []
    requires m.domains == [] && !m.worldReadable
    requires env == Env(Some(User("editor")), false, map[])
    ensures "editor" !in m.owners && !HasDomainRole(env.currentUser, MapOwner, m)
    ensures HasGlobalRoleAsWritten(env, User("editor"), Global(MapOwner)) == Err(DomainlessUser)
  {
  }

  /**
   * The corrected HasGlobalRole gives an address without '@' exactly the
   * grants stored for that address, and an address with one also the
   * grants of its domain.
   */
  lemma HasGlobalRoleCorrected(env: Env, u: User, g: Grant)
    ensures '@' in u.email ==> (HasGlobalRole(env, u, g) <==>
      g in GetGlobalRoles(env.config, u.email) || g in GetGlobalRoles(env.config, UserDomain(Some(u)).value))
    ensures '@' !in u.email ==> (HasGlobalRole(env, u, g) <==> g in GetGlobalRoles(env.config, u.email))
  {
  }

  /** CheckAccess's three invalid-argument cases. */
  lemma CheckAccessArgumentErrors(env: Env, role: string, target: Target, user: Option<User>)
    ensures (role == "CATALOG_EDITOR" || role == "MAP_CREATOR") && !target.DomainName? ==>
      CheckAccess(env, role, target, user) == Err(InvalidTarget(role))
    ensures (role == "MAP_OWNER" || role == "MAP_EDITOR" || role == "MAP_VIEWER") && !target.MapTarget? ==>
      CheckAccess(env, role, target, user) == Err(InvalidTarget(role))
    ensures Parse(role).None? ==> CheckAccess(env, role, target, user).Err?
  {
  }

  /** The domains GetDomainsWithRole reports for CATALOG_EDITOR are domains the user may edit. */
  lemma DomainsWithRoleAreGranted(env: Env, u: User, d: string)
    requires HasGlobalRole(env, u, ForDomain(CatalogEditor, d))
    ensures HasRoleCatalogEditor(env, Some(u), d)
  {
  }
}
