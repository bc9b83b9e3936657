/**
 * The access policy (AccessPolicy), the authorization gate (CheckAccess,
 * AssertAccess) and the grant lookups they rest on (GetGlobalRoles,
 * GetDomainsWithRole).
 */
module Access {
  import opened Base
  import opened Roles
  import opened Users
  import opened Entities
  import Settings

  /**
   * The ambient facts a decision reads: the signed-in user, whether App
   * Engine marks that user as an administrator of the app, and the stored
   * Config values under the `global_roles:` keys.
   */
  datatype Env = Env(currentUser: Option<User>, currentUserIsAdmin: bool, config: map<string, seq<Grant>>)

  const GlobalRolesPrefix := "global_roles:"

  /** The grants stored for a user or a domain; none when nothing is stored. */
  function GetGlobalRoles(config: map<string, seq<Grant>>, subject: string): seq<Grant> {
    var key := GlobalRolesPrefix + subject;
    if key in config then config[key] else []
  }

  /** Grants held through the user's domain; an address without '@' has none. */
  function DomainGrants(env: Env, u: User): seq<Grant> {
    match UserDomain(Some(u))
    case Some(d) => GetGlobalRoles(env.config, d)
    case None => []
  }

  /** Whether the user, or the user's domain, holds the grant. */
  predicate HasGlobalRole(env: Env, u: User, g: Grant) {
    g in GetGlobalRoles(env.config, u.email) || g in DomainGrants(env, u)
  }

  /**
   * HasGlobalRole as the source writes it: the domain lookup concatenates
   * the prefix with GetUserDomain's result, which is False for an address
   * without '@', and so raises TypeError unless the address grants matched.
   */
  function HasGlobalRoleAsWritten(env: Env, u: User, g: Grant): (r: Result<bool>)
    ensures r.Err? <==> '@' !in u.email && g !in GetGlobalRoles(env.config, u.email)
    ensures r.Err? ==> r.error == DomainlessUser
    ensures r.Ok? ==> r.value == HasGlobalRole(env, u, g)
  {
    if g in GetGlobalRoles(env.config, u.email) then Ok(true)
    else
      match UserDomain(Some(u))
      case Some(d) => Ok(g in GetGlobalRoles(env.config, d))
      case None => Err(DomainlessUser)
  }

  /** The user the source checks when none is given: `user or users.get_current_user()`. */
  function Effective(env: Env, user: Option<User>): Option<User> {
    if user.Some? then user else env.currentUser
  }

  predicate HasRoleAdmin(env: Env, u: Option<User>) {
    u.Some? &&
    (HasGlobalRole(env, u.value, Global(Admin)) ||
     (u == env.currentUser && env.currentUserIsAdmin))
  }

  predicate HasRoleCatalogEditor(env: Env, u: Option<User>, domain: string) {
    u.Some? &&
    (HasGlobalRole(env, u.value, ForDomain(CatalogEditor, domain)) ||
     HasGlobalRole(env, u.value, Global(CatalogEditor)) ||
     HasRoleAdmin(env, u))
  }

  predicate HasRoleMapCreator(env: Env, u: Option<User>, domain: string) {
    u.Some? &&
    (HasGlobalRole(env, u.value, ForDomain(MapCreator, domain)) ||
     HasRoleAdmin(env, u))
  }

  /** The user's domain is one of the map's domains and the map gives that exact role to its domains. */
  predicate HasDomainRole(u: Option<User>, role: Role, m: MapRecord) {
    u.Some? && UserDomain(u).Some? && UserDomain(u).value in m.domains && m.domainRole == Some(role)
  }

  predicate HasRoleMapOwner(env: Env, u: Option<User>, m: MapRecord) {
    u.Some? &&
    (u.value.email in m.owners ||
     HasDomainRole(u, MapOwner, m) ||
     HasGlobalRole(env, u.value, Global(MapOwner)) ||
     HasRoleAdmin(env, u))
  }

  predicate HasRoleMapEditor(env: Env, u: Option<User>, m: MapRecord) {
    u.Some? &&
    (u.value.email in m.editors ||
     HasDomainRole(u, MapEditor, m) ||
     HasGlobalRole(env, u.value, Global(MapEditor)) ||
     HasRoleMapOwner(env, u, m))
  }

  predicate HasRoleMapViewer(env: Env, u: Option<User>, m: MapRecord) {
    m.worldReadable ||
    (u.Some? &&
     (u.value.email in m.viewers ||
      HasDomainRole(u, MapViewer, m) ||
      HasGlobalRole(env, u.value, Global(MapViewer)) ||
      HasRoleMapEditor(env, u, m)))
  }

  /**
   * CheckAccess: whether the user (by default the signed-in one) holds
   * `role` on `target`. An unknown role, or a target of the wrong shape for
   * the role, is an invalid-argument error rather than a denial.
   */
  function CheckAccess(env: Env, role: string, target: Target, user: Option<User>): (r: Result<bool>)
    ensures r.Err? <==> Parse(role).None? || (Parse(role) != Some(Admin) && !Fits(Parse(role).value, target))
    ensures r.Err? ==> r.error == InvalidTarget(role) || r.error == InvalidRole(role)
    ensures r == Err(InvalidRole(role)) <==> Parse(role).None? && target.MapTarget?
    ensures Parse(role) == Some(Admin) ==> r == Ok(HasRoleAdmin(env, Effective(env, user)))
    ensures Parse(role) == Some(CatalogEditor) && target.DomainName? ==>
      r == Ok(HasRoleCatalogEditor(env, Effective(env, user), target.name))
    ensures Parse(role) == Some(MapCreator) && target.DomainName? ==>
      r == Ok(HasRoleMapCreator(env, Effective(env, user), target.name))
    ensures Parse(role) == Some(MapOwner) && target.MapTarget? ==>
      r == Ok(HasRoleMapOwner(env, Effective(env, user), target.header))
    ensures Parse(role) == Some(MapEditor) && target.MapTarget? ==>
      r == Ok(HasRoleMapEditor(env, Effective(env, user), target.header))
    ensures Parse(role) == Some(MapViewer) && target.MapTarget? ==>
      r == Ok(HasRoleMapViewer(env, Effective(env, user), target.header))
  {
    var u := Effective(env, user);
    var p := Parse(role);
    if p == Some(Admin) then Ok(HasRoleAdmin(env, u))
    else if p == Some(CatalogEditor) then
      if target.DomainName? then Ok(HasRoleCatalogEditor(env, u, target.name)) else Err(InvalidTarget(role))
    else if p == Some(MapCreator) then
      if target.DomainName? then Ok(HasRoleMapCreator(env, u, target.name)) else Err(InvalidTarget(role))
    else if !target.MapTarget? then Err(InvalidTarget(role))
    else if p == Some(MapOwner) then Ok(HasRoleMapOwner(env, u, target.header))
    else if p == Some(MapEditor) then Ok(HasRoleMapEditor(env, u, target.header))
    else if p == Some(MapViewer) then Ok(HasRoleMapViewer(env, u, target.header))
    else Err(InvalidRole(role))
  }

  /**
   * AssertAccess: passes exactly when CheckAccess grants; a denial becomes
   * an AuthorizationError naming the checked user, role and target, and an
   * invalid argument is passed through.
   */
  function AssertAccess(env: Env, role: string, target: Target, user: Option<User>): (r: Outcome)
    ensures r == Pass <==> CheckAccess(env, role, target, user) == Ok(true)
    ensures CheckAccess(env, role, target, user) == Ok(false) ==>
      r == Fail(AuthorizationError(Effective(env, user), role, target))
    ensures CheckAccess(env, role, target, user).Err? ==>
      r == Fail(CheckAccess(env, role, target, user).error)
  {
    var u := Effective(env, user);
    match CheckAccess(env, role, target, u)
    case Ok(true) => Pass
    case Ok(false) => Fail(AuthorizationError(u, role, target))
    case Err(e) => Fail(e)
  }

  /**
   * GetDomainsWithRole: the domains for which the user (by default the
   * signed-in one) holds `role` through a `[role, domain]` grant of its own
   * or of its domain. Blanket grants and ADMIN do not add domains.
   */
  method GetDomainsWithRole(env: Env, role: Role, user: Option<User>) returns (r: Result<set<string>>)
    ensures Effective(env, user).None? <==> r == Err(NoUser)
    ensures r.Ok? ==> forall d :: d in r.value <==> HasGlobalRole(env, Effective(env, user).value, ForDomain(role, d))
  {
    var u := Effective(env, user);
    if u.None? {
      return Err(NoUser);
    }
    var items := GetGlobalRoles(env.config, u.value.email) + DomainGrants(env, u.value);
    var domains: set<string> := {};
    for i := 0 to |items|
      invariant forall d :: d in domains <==> ForDomain(role, d) in items[..i]
    {
      if items[i].ForDomain? && items[i].role == role {
        domains := domains + {items[i].domain};
      }
      assert items[..i + 1] == items[..i] + [items[i]];
    }
    assert items[..|items|] == items;
    r := Ok(domains);
  }

  /** Every cached global-roles value whose key is not stored is the default, []. */
  ghost predicate AbsentCachedEmpty(config: Settings.Config<seq<Grant>>)
    reads config
  {
    forall k :: k in config.cached && k !in config.stored ==> config.cached[k] == []
  }

  /** GetGlobalRoles: the grants of a user or domain, read through the Config cache. */
  method FetchGlobalRoles(config: Settings.Config<seq<Grant>>, subject: string) returns (roles: seq<Grant>)
    requires config.Coherent() && AbsentCachedEmpty(config)
    modifies config`cached
    ensures config.Coherent() && AbsentCachedEmpty(config) && config.stored == old(config.stored)
    ensures roles == GetGlobalRoles(config.stored, subject)
  {
    roles := config.Get(GlobalRolesPrefix + subject, []);
  }

  /** SetGlobalRoles: replace the grants of a user or domain. */
  method SetGlobalRoles(config: Settings.Config<seq<Grant>>, subject: string, roles: seq<Grant>)
    requires config.Coherent() && AbsentCachedEmpty(config)
    modifies config
    ensures config.Coherent() && AbsentCachedEmpty(config)
    ensures config.stored == old(config.stored)[GlobalRolesPrefix + subject := roles]
    ensures GetGlobalRoles(config.stored, subject) == roles
  {
    config.Set(GlobalRolesPrefix + subject, roles);
  }
}
