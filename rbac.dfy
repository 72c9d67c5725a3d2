/** The role gate `authorizeRoles(...allowed)` (middleware/roleMiddleware.js): the request
    continues iff one of the principal's role names is in the allowed list. */
module Rbac {
  import opened Common

  /** `userRoles.some(role => allowedRoles.includes(role))`, scanning the role list in order. */
  function SomeRoleAllowed(roles: seq<RoleEntry>, allowed: seq<string>): (b: bool)
    ensures b <==> exists i :: 0 <= i < |roles| && roles[i].RoleName? && roles[i].name in allowed
  {
    if roles == [] then false
    else (roles[0].RoleName? && roles[0].name in allowed) || SomeRoleAllowed(roles[1..], allowed)
  }

  /** The gate itself: pass, or a 403 with the fixed "insufficient role" reason. */
  function AuthorizeRoles(allowed: seq<string>, p: Principal): (v: Verdict)
    ensures v == Pass || v == Refuse(Forbidden, InsufficientRole)
    ensures v == Pass <==> exists role :: HasRole(p, role) && role in allowed
  {
    if SomeRoleAllowed(p.roles, allowed) then Pass
    else
      assert forall role :: HasRole(p, role) ==> role !in allowed by {
        forall role | HasRole(p, role) ensures role !in allowed {
          var i :| 0 <= i < |p.roles| && p.roles[i] == RoleName(role);
        }
      }
      Refuse(Forbidden, InsufficientRole)
  }

  /** A principal with no roles (or a missing `roles` claim, read as `[]`) is always refused. */
  lemma NoRolesRefused(allowed: seq<string>, p: Principal)
    requires p.roles == []
    ensures AuthorizeRoles(allowed, p) == Refuse(Forbidden, InsufficientRole)
  {
  }

  /** An empty allowed list refuses every principal. */
  lemma EmptyAllowedRefusesAll(p: Principal)
    ensures AuthorizeRoles([], p) == Refuse(Forbidden, InsufficientRole)
  {
  }

  /** Monotone: more roles for the principal, or more roles in the allowed list, never turn a
      pass into a refusal. */
  lemma Monotone(allowed: seq<string>, allowed': seq<string>, p: Principal, p': Principal)
    requires forall e :: e in p.roles ==> e in p'.roles
    requires forall r :: r in allowed ==> r in allowed'
    requires AuthorizeRoles(allowed, p) == Pass
    ensures AuthorizeRoles(allowed', p') == Pass
  {
    var role :| HasRole(p, role) && role in allowed;
    assert HasRole(p', role);
  }

  /** Order and duplicates in either list do not matter: only which elements occur does. */
  lemma OnlySetsMatter(allowed: seq<string>, allowed': seq<string>, p: Principal, p': Principal)
    requires forall e :: e in p.roles <==> e in p'.roles
    requires forall r :: r in allowed <==> r in allowed'
    ensures AuthorizeRoles(allowed, p) == AuthorizeRoles(allowed', p')
  {
    if AuthorizeRoles(allowed, p) == Pass {
      Monotone(allowed, allowed', p, p');
    } else if AuthorizeRoles(allowed', p') == Pass {
      Monotone(allowed', allowed, p', p);
    }
  }

  /** A `{ name }` object in the role list never satisfies this gate, whatever its name. */
  lemma RoleObjectsIgnored(allowed: seq<string>, p: Principal, name: string)
    requires p.roles == [RoleObject(name)]
    ensures AuthorizeRoles(allowed, p).Refuse?
  {
  }
}
