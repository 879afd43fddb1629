/** The role gate of the auth plugin (the same gate is repeated in the
    application's own middlewares), and the middleware that attaches a
    user's permission table to the request. */
module RoleGate {
  import opened Wrappers

  datatype User = User(role: string)

  /** What the gate hands to `next`: nothing, or an error. */
  datatype Outcome = Next | NextError(error: Thrown)

  const PermissionDenied: Thrown := HttpError(401, "Permission denied")

  /** `roleMiddleware(roles)(req, res, next)`. */
  function RoleMiddleware(roles: seq<string>, user: Option<User>): (o: Outcome)
    ensures o == Next || o == NextError(PermissionDenied)
  {
    if user.Some? && user.value.role in roles then Next else NextError(PermissionDenied)
  }

  /** The request passes exactly when there is a user whose role is listed. */
  lemma RoleMiddlewareIff(roles: seq<string>, user: Option<User>)
    ensures RoleMiddleware(roles, user) == Next <==> user.Some? && user.value.role in roles
    ensures RoleMiddleware(roles, user) != Next ==> RoleMiddleware(roles, user) == NextError(PermissionDenied)
  {
  }

  /** An empty list lets nobody through. */
  lemma EmptyRolesDeny(user: Option<User>)
    ensures RoleMiddleware([], user) == NextError(PermissionDenied)
  {
  }

  /** Listing more roles never shuts anybody out. */
  lemma MoreRolesAdmitMore(roles: seq<string>, more: seq<string>, user: Option<User>)
    requires RoleMiddleware(roles, user) == Next
    ensures RoleMiddleware(roles + more, user) == Next
  {
  }

  /** `getPermissions(role)`: the admin table for 'admin', the user table
      for every other role. The two tables are parameters. */
  function GetPermissions<P>(role: string, adminPermissions: seq<P>, userPermissions: seq<P>): (ps: seq<P>)
    ensures role == "admin" ==> ps == adminPermissions
    ensures role != "admin" ==> ps == userPermissions
  {
    if role == "admin" then adminPermissions else userPermissions
  }

  /** The request object, with the permissions the middleware writes. */
  class RequestWithUser<P> {
    var user: Option<User>
    var permissions: Option<seq<P>>

    constructor(user: Option<User>)
      ensures this.user == user && permissions == None
    {
      this.user := user;
      permissions := None;
    }

    /** `getUserPermissionMiddleware(req)`. Reading the role of a missing
        user throws a TypeError, and then nothing is written. */
    method GetUserPermission(adminPermissions: seq<P>, userPermissions: seq<P>) returns (thrown: Option<Thrown>)
      modifies this
      ensures thrown.Some? <==> old(user).None?
      ensures user == old(user)
      ensures old(user).Some? ==> permissions == Some(GetPermissions(user.value.role, adminPermissions, userPermissions))
      ensures old(user).None? ==> permissions == old(permissions)
    {
      if user.None? {
        return Some(PlainError("Cannot read properties of undefined (reading 'role')"));
      }
      permissions := Some(GetPermissions(user.value.role, adminPermissions, userPermissions));
      thrown := None;
    }
  }
}
