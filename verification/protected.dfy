/** The role gate in front of the protected endpoints: the whole controller
    needs an authenticated caller, and two endpoints additionally need a role. */
module Protected {
  import opened Basics
  import opened Auth

  /** Who is calling: nobody with a valid token, or the claims of the token. */
  datatype Principal = Anonymous | Authenticated(claims: seq<Claim>)

  datatype Endpoint = Get | AdminData | ManagerData

  /** Allowed, rejected as unauthenticated (401), or rejected for the role (403). */
  datatype Access = Allowed | Challenged | Forbidden

  /** `IsInRole`: some role claim carries exactly this role (case matters). */
  predicate IsInRole(p: Principal, role: string)
  {
    p.Authenticated? && exists i :: 0 <= i < |p.claims| && p.claims[i] == Claim(RoleClaim, role)
  }

  /** The roles an endpoint's own attribute names; `None` when any
      authenticated caller may pass. */
  function RequiredRoles(e: Endpoint): Option<set<string>>
  {
    match e
    case Get => None
    case AdminData => Some({"Admin"})
    case ManagerData => Some({"Manager", "Admin"})
  }

  function Authorize(p: Principal, e: Endpoint): (r: Access)
    ensures p.Anonymous? <==> r == Challenged
    ensures e == Get ==> (r == Allowed <==> p.Authenticated?)
    ensures e == AdminData ==> (r == Allowed <==> IsInRole(p, "Admin"))
    ensures e == ManagerData ==> (r == Allowed <==> IsInRole(p, "Manager") || IsInRole(p, "Admin"))
    ensures r == Forbidden ==> p.Authenticated? && e != Get
  {
    if p.Anonymous? then Challenged
    else
      match RequiredRoles(e)
      case None => Allowed
      case Some(roles) =>
        if exists role :: role in roles && IsInRole(p, role) then Allowed else Forbidden
  }

  /** The caller a token stands for, once its signature and lifetime have been
      checked. */
  function PrincipalOf(t: Token): Principal
  {
    Authenticated(t.claims)
  }

  /** Whoever reaches `admin-data` also reaches `manager-data`, and whoever
      reaches `manager-data` also reaches the plain endpoint. */
  lemma AccessIsNested(p: Principal)
    ensures Authorize(p, AdminData) == Allowed ==> Authorize(p, ManagerData) == Allowed
    ensures Authorize(p, ManagerData) == Allowed ==> Authorize(p, Get) == Allowed
  {
  }

  /** For a token issued at login, the gate depends only on the user's stored
      role: `admin-data` exactly for "Admin", `manager-data` exactly for
      "Manager" or "Admin", and the plain endpoint for every role, for instance
      "User". */
  lemma TokenRoleDecidesAccess(user: Store.User, settings: JwtSettings, jti: string, now: Time)
    ensures var p := PrincipalOf(GenerateToken(user, settings, jti, now));
            && Authorize(p, Get) == Allowed
            && (Authorize(p, AdminData) == Allowed <==> user.role == "Admin")
            && (Authorize(p, ManagerData) == Allowed <==> user.role == "Manager" || user.role == "Admin")
            && (Authorize(p, AdminData) == Forbidden <==> user.role != "Admin")
  {
    var t := GenerateToken(user, settings, jti, now);
    var p := PrincipalOf(t);
    assert t.claims[2] == Claim(RoleClaim, user.role);
    forall role | IsInRole(p, role) ensures role == user.role {
      var i :| 0 <= i < |p.claims| && p.claims[i] == Claim(RoleClaim, role);
    }
  }
}
