/** The role-based access rules of the authz plugin (`AuthzService`): the
    validation of a role's permissions against the registered resources,
    the role, resource and endpoint-config collections with their create,
    update and delete operations, the permission check, and the flat list
    of every (resource, action) pair the resources allow.

    The service reads a role's `permissions` as an array of
    `{ resource, action }` pairs, and so does the model. */
module AuthzService {
  import opened Wrappers

  const SuperadminRole: string := "superadmin"

  /** `SPECIAL_RESOURCES`: 'all' and '*' stand for every resource. */
  predicate IsSpecialResource(r: string) {
    r == "all" || r == "*"
  }

  /** `SPECIAL_ACTIONS`: '*' and 'manage' stand for every action. */
  predicate IsSpecialAction(a: string) {
    a == "*" || a == "manage"
  }

  datatype Permission = Permission(resource: string, action: string)

  datatype Role = Role(id: string, name: string, description: Option<string>,
                       permissions: seq<Permission>, isSystem: bool)

  datatype Resource = Resource(id: string, name: string, description: Option<string>,
                               allowedActions: seq<string>, isActive: bool)

  datatype EndpointConfig = EndpointConfig(id: string, path: string, httpMethod: string,
                                           resource: string, action: string,
                                           description: Option<string>, isActive: bool)

  /** A request's `permissions` field: an array of pairs, or any other value. */
  datatype PermissionsField = PermissionList(items: seq<Permission>) | NotAList

  /** A missing or empty name is the empty string. */
  datatype CreateRoleDto = CreateRoleDto(name: string, description: Option<string>, permissions: PermissionsField)

  /** `None` is a field that is absent or falsy. */
  datatype UpdateRoleDto = UpdateRoleDto(name: Option<string>, description: Option<string>,
                                         permissions: Option<PermissionsField>)

  datatype CreateResourceDto = CreateResourceDto(name: string, description: Option<string>, allowedActions: seq<string>)

  datatype UpdateResourceDto = UpdateResourceDto(name: Option<string>, description: Option<string>,
                                                 allowedActions: Option<seq<string>>, isActive: Option<bool>)

  datatype CreateEndpointConfigDto = CreateEndpointConfigDto(path: string, httpMethod: string, resource: string,
                                                             action: string, description: Option<string>)

  datatype UpdateEndpointConfigDto = UpdateEndpointConfigDto(
    path: Option<string>, httpMethod: Option<string>, resource: Option<string>,
    action: Option<string>, description: Option<string>, isActive: Option<bool>)

  // ---------------------------------------------------------------------
  // Permission validation

  /** The `resourceMap` lookup: the allowed actions of the LAST resource of
      that name, because building a `Map` keeps the last value of a key. */
  function ActionsOf(resources: seq<Resource>, name: string): (r: Option<seq<string>>)
    ensures r.None? <==> forall i :: 0 <= i < |resources| ==> resources[i].name != name
    ensures r.Some? ==> exists i :: 0 <= i < |resources| && resources[i].name == name &&
                          r.value == resources[i].allowedActions &&
                          forall j :: i < j < |resources| ==> resources[j].name != name
  {
    var k := LastNamed(resources, name);
    if k.Some? then Some(resources[k.value].allowedActions) else None
  }

  /** The index of the last resource of that name. */
  function LastNamed(resources: seq<Resource>, name: string): (k: Option<nat>)
    ensures k.None? ==> forall i :: 0 <= i < |resources| ==> resources[i].name != name
    ensures k.Some? ==> k.value < |resources| && resources[k.value].name == name &&
                        forall j :: k.value < j < |resources| ==> resources[j].name != name
  {
    if resources == [] then None
    else if resources[|resources| - 1].name == name then Some(|resources| - 1)
    else
      var k := LastNamed(resources[..|resources| - 1], name);
      assert forall i :: 0 <= i < |resources| - 1 ==> resources[..|resources| - 1][i] == resources[i];
      k
  }

  /** One permission of a role request is acceptable. */
  predicate Permitted(resources: seq<Resource>, p: Permission) {
    IsSpecialResource(p.resource) ||
    (ActionsOf(resources, p.resource).Some? &&
     (IsSpecialAction(p.action) || p.action in ActionsOf(resources, p.resource).value))
  }

  /** The check of one permission: a special resource skips everything; an
      unknown resource and an action the resource does not allow are 400s. */
  function CheckOne(resources: seq<Resource>, p: Permission): (r: Result<(), Thrown>)
    ensures r.Ok? <==> Permitted(resources, p)
    ensures r.Err? ==> r.error.HttpError? && r.error.status == 400
  {
    if IsSpecialResource(p.resource) then Ok(())
    else
      match ActionsOf(resources, p.resource)
      case None => Err(HttpError(400, "Invalid resource: " + p.resource))
      case Some(allowed) =>
        if IsSpecialAction(p.action) then Ok(())
        else if p.action !in allowed then
          Err(HttpError(400, "Invalid action '" + p.action + "' for resource '" + p.resource + "'"))
        else Ok(())
  }

  /** The validation loop: the error of the first unacceptable permission. */
  function ValidatePermissions(resources: seq<Resource>, ps: seq<Permission>): Result<(), Thrown>
    decreases |ps|
  {
    if ps == [] then Ok(())
    else if CheckOne(resources, ps[0]).Err? then CheckOne(resources, ps[0])
    else ValidatePermissions(resources, ps[1..])
  }

  /** The validation succeeds exactly when every permission is acceptable. */
  lemma {:induction false} ValidateOkIff(resources: seq<Resource>, ps: seq<Permission>)
    ensures ValidatePermissions(resources, ps).Ok? <==> forall i :: 0 <= i < |ps| ==> Permitted(resources, ps[i])
    decreases |ps|
  {
    if ps != [] {
      ValidateOkIff(resources, ps[1..]);
      assert forall i :: 1 <= i < |ps| ==> ps[1..][i - 1] == ps[i];
    }
  }

  /** A failed validation reports the first unacceptable permission, as a 400. */
  lemma {:induction false} ValidateFirstError(resources: seq<Resource>, ps: seq<Permission>)
    requires ValidatePermissions(resources, ps).Err?
    ensures exists i :: 0 <= i < |ps| && !Permitted(resources, ps[i]) &&
                        (forall j :: 0 <= j < i ==> Permitted(resources, ps[j])) &&
                        ValidatePermissions(resources, ps) == CheckOne(resources, ps[i])
    ensures ValidatePermissions(resources, ps).error.HttpError? && ValidatePermissions(resources, ps).error.status == 400
    decreases |ps|
  {
    if CheckOne(resources, ps[0]).Err? {
      assert !Permitted(resources, ps[0]);
    } else {
      ValidateFirstError(resources, ps[1..]);
      var k :| 0 <= k < |ps[1..]| && !Permitted(resources, ps[1..][k]) &&
               (forall j :: 0 <= j < k ==> Permitted(resources, ps[1..][j])) &&
               ValidatePermissions(resources, ps[1..]) == CheckOne(resources, ps[1..][k]);
      assert forall j :: 1 <= j < k + 1 ==> ps[j] == ps[1..][j - 1];
      assert ps[k + 1] == ps[1..][k];
    }
  }

  /** A permission on a special resource needs no registered resource. */
  lemma SpecialResourceAlwaysValid(resources: seq<Resource>, ps: seq<Permission>)
    requires forall i :: 0 <= i < |ps| ==> IsSpecialResource(ps[i].resource)
    ensures ValidatePermissions(resources, ps).Ok?
  {
    ValidateOkIff(resources, ps);
  }

  // ---------------------------------------------------------------------
  // Lookups by id

  /** The index of the record with id `id`, as `findById` finds it;
      `idOf` reads a record's id. */
  function IndexOfId<T>(xs: seq<T>, idOf: T -> string, id: string): (r: Option<nat>)
    ensures r.Some? ==> r.value < |xs| && idOf(xs[r.value]) == id
    ensures r.None? <==> forall i :: 0 <= i < |xs| ==> idOf(xs[i]) != id
  {
    if xs == [] then None
    else if idOf(xs[0]) == id then Some(0)
    else
      match IndexOfId(xs[1..], idOf, id)
      case None => None
      case Some(k) => Some(k + 1)
  }

  function RoleIdOf(r: Role): string { r.id }

  function ResourceIdOf(r: Resource): string { r.id }

  function EndpointIdOf(c: EndpointConfig): string { c.id }

  /** Distinct ids: what the store's id generator guarantees. */
  predicate RoleIdsDistinct(roles: seq<Role>) {
    forall i, j :: 0 <= i < j < |roles| ==> roles[i].id != roles[j].id
  }

  predicate ResourceIdsDistinct(resources: seq<Resource>) {
    forall i, j :: 0 <= i < j < |resources| ==> resources[i].id != resources[j].id
  }

  predicate EndpointIdsDistinct(configs: seq<EndpointConfig>) {
    forall i, j :: 0 <= i < j < |configs| ==> configs[i].id != configs[j].id
  }

  function RemoveAt<T>(s: seq<T>, k: nat): (r: seq<T>)
    requires k < |s|
    ensures |r| == |s| - 1
    ensures forall i :: 0 <= i < k ==> r[i] == s[i]
    ensures forall i :: k <= i < |r| ==> r[i] == s[i + 1]
  {
    s[..k] + s[k + 1..]
  }

  // ---------------------------------------------------------------------
  // Role requests

  /** `createRole`: the role to store, or the 400/409/400 that refuses it. */
  function CreateRoleSpec(roles: seq<Role>, resources: seq<Resource>, dto: CreateRoleDto, id: string): (r: Result<Role, Thrown>)
    ensures r.Ok? <==> dto.name != "" && dto.permissions.PermissionList? &&
                       (forall i :: 0 <= i < |roles| ==> roles[i].name != dto.name) &&
                       ValidatePermissions(resources, dto.permissions.items).Ok?
    ensures r.Ok? ==> r.value == Role(id, dto.name, dto.description, dto.permissions.items, false)
    ensures dto.name == "" ==> r == Err(HttpError(400, "Role name is required"))
    ensures dto.name != "" && dto.permissions.NotAList? ==> r == Err(HttpError(400, "Permissions must be an array"))
    ensures dto.name != "" && dto.permissions.PermissionList? && (exists i :: 0 <= i < |roles| && roles[i].name == dto.name) ==>
              r.Err? && r.error.HttpError? && r.error.status == 409
  {
    if dto.name == "" then Err(HttpError(400, "Role name is required"))
    else if dto.permissions.NotAList? then Err(HttpError(400, "Permissions must be an array"))
    else if exists i :: 0 <= i < |roles| && roles[i].name == dto.name then
      Err(HttpError(409, "Role " + dto.name + " already exists"))
    else
      match ValidatePermissions(resources, dto.permissions.items)
      case Err(e) => Err(e)
      case Ok(_) => Ok(Role(id, dto.name, dto.description, dto.permissions.items, false))
  }

  /** `Object.assign(role, roleData)`: the fields present replace the old ones. */
  function MergeRole(role: Role, dto: UpdateRoleDto): Role {
    role.(name := dto.name.GetOr(role.name),
          description := if dto.description.Some? then dto.description else role.description,
          permissions := if dto.permissions.Some? && dto.permissions.value.PermissionList?
                         then dto.permissions.value.items else role.permissions)
  }

  /** `updateRole`: the index and the merged role, or 404/403/400. A system
      role is changed only by a caller whose role is named 'superadmin'. */
  function UpdateRoleSpec(roles: seq<Role>, resources: seq<Resource>, id: string, dto: UpdateRoleDto,
                          caller: Option<Role>): (r: Result<(nat, Role), Thrown>)
    ensures IndexOfId(roles, RoleIdOf, id).None? ==> r == Err(HttpError(404, "Role not found"))
    ensures IndexOfId(roles, RoleIdOf, id).Some? && roles[IndexOfId(roles, RoleIdOf, id).value].isSystem &&
            (caller.None? || caller.value.name != SuperadminRole) ==>
              r == Err(HttpError(403, "System roles cannot be modified"))
    ensures r.Ok? <==> IndexOfId(roles, RoleIdOf, id).Some? &&
                       (!roles[IndexOfId(roles, RoleIdOf, id).value].isSystem || (caller.Some? && caller.value.name == SuperadminRole)) &&
                       (dto.permissions.Some? ==> dto.permissions.value.PermissionList? &&
                                                  ValidatePermissions(resources, dto.permissions.value.items).Ok?)
    ensures r.Ok? ==> r.value.0 == IndexOfId(roles, RoleIdOf, id).value &&
                      r.value.1 == MergeRole(roles[r.value.0], dto)
    ensures r.Err? ==> r.error.HttpError? && r.error.status in {400, 403, 404}
  {
    match IndexOfId(roles, RoleIdOf, id)
    case None => Err(HttpError(404, "Role not found"))
    case Some(k) =>
      if roles[k].isSystem && (caller.None? || caller.value.name != SuperadminRole) then
        Err(HttpError(403, "System roles cannot be modified"))
      else if dto.permissions.Some? && dto.permissions.value.NotAList? then
        Err(HttpError(400, "Permissions must be an array"))
      else if dto.permissions.Some? && ValidatePermissions(resources, dto.permissions.value.items).Err? then
        ValidateFirstError(resources, dto.permissions.value.items);
        Err(ValidatePermissions(resources, dto.permissions.value.items).error)
      else Ok((k, MergeRole(roles[k], dto)))
  }

  /** The role fields an update leaves alone: its id and whether it is a
      system role. */
  lemma UpdateKeepsIdentity(roles: seq<Role>, resources: seq<Resource>, id: string, dto: UpdateRoleDto, caller: Option<Role>)
    requires UpdateRoleSpec(roles, resources, id, dto, caller).Ok?
    ensures var role := UpdateRoleSpec(roles, resources, id, dto, caller).value.1;
            role.id == id && role.isSystem == roles[IndexOfId(roles, RoleIdOf, id).value].isSystem
    ensures var role := UpdateRoleSpec(roles, resources, id, dto, caller).value.1;
            dto == UpdateRoleDto(None, None, None) ==> role == roles[IndexOfId(roles, RoleIdOf, id).value]
  {
  }

  /** `deleteRole`: the index to remove, or 404; a system role is never
      deleted, whoever asks. */
  function DeleteRoleSpec(roles: seq<Role>, id: string): (r: Result<nat, Thrown>)
    ensures IndexOfId(roles, RoleIdOf, id).None? ==> r == Err(HttpError(404, "Role not found"))
    ensures r.Ok? <==> IndexOfId(roles, RoleIdOf, id).Some? && !roles[IndexOfId(roles, RoleIdOf, id).value].isSystem
    ensures r.Ok? ==> r.value == IndexOfId(roles, RoleIdOf, id).value
    ensures IndexOfId(roles, RoleIdOf, id).Some? && roles[IndexOfId(roles, RoleIdOf, id).value].isSystem ==>
              r == Err(HttpError(403, "System roles cannot be deleted"))
  {
    match IndexOfId(roles, RoleIdOf, id)
    case None => Err(HttpError(404, "Role not found"))
    case Some(k) => if roles[k].isSystem then Err(HttpError(403, "System roles cannot be deleted")) else Ok(k)
  }

  // ---------------------------------------------------------------------
  // Resource and endpoint-config requests

  function CreateResourceSpec(resources: seq<Resource>, dto: CreateResourceDto, id: string): (r: Result<Resource, Thrown>)
    ensures dto.name == "" ==> r == Err(HttpError(400, "Resource name is required"))
    ensures r.Ok? <==> dto.name != "" && forall i :: 0 <= i < |resources| ==> resources[i].name != dto.name
    ensures r.Ok? ==> r.value == Resource(id, dto.name, dto.description, dto.allowedActions, true)
    ensures r.Err? && dto.name != "" ==> r.error.HttpError? && r.error.status == 409
  {
    if dto.name == "" then Err(HttpError(400, "Resource name is required"))
    else if exists i :: 0 <= i < |resources| && resources[i].name == dto.name then
      Err(HttpError(409, "Resource " + dto.name + " already exists"))
    else Ok(Resource(id, dto.name, dto.description, dto.allowedActions, true))
  }

  function MergeResource(r: Resource, dto: UpdateResourceDto): Resource {
    r.(name := dto.name.GetOr(r.name),
       description := if dto.description.Some? then dto.description else r.description,
       allowedActions := dto.allowedActions.GetOr(r.allowedActions),
       isActive := dto.isActive.GetOr(r.isActive))
  }

  function CreateEndpointSpec(configs: seq<EndpointConfig>, dto: CreateEndpointConfigDto, id: string): (r: Result<EndpointConfig, Thrown>)
    ensures dto.path == "" || dto.httpMethod == "" ==> r == Err(HttpError(400, "Path and method are required"))
    ensures r.Ok? <==> dto.path != "" && dto.httpMethod != "" &&
                       forall i :: 0 <= i < |configs| ==> !(configs[i].path == dto.path && configs[i].httpMethod == dto.httpMethod)
    ensures r.Ok? ==> r.value == EndpointConfig(id, dto.path, dto.httpMethod, dto.resource, dto.action, dto.description, true)
    ensures r.Err? && dto.path != "" && dto.httpMethod != "" ==> r.error.HttpError? && r.error.status == 409
  {
    if dto.path == "" || dto.httpMethod == "" then Err(HttpError(400, "Path and method are required"))
    else if exists i :: 0 <= i < |configs| && configs[i].path == dto.path && configs[i].httpMethod == dto.httpMethod then
      Err(HttpError(409, "Endpoint config for " + dto.httpMethod + " " + dto.path + " already exists"))
    else Ok(EndpointConfig(id, dto.path, dto.httpMethod, dto.resource, dto.action, dto.description, true))
  }

  function MergeEndpoint(c: EndpointConfig, dto: UpdateEndpointConfigDto): EndpointConfig {
    c.(path := dto.path.GetOr(c.path), httpMethod := dto.httpMethod.GetOr(c.httpMethod),
       resource := dto.resource.GetOr(c.resource), action := dto.action.GetOr(c.action),
       description := if dto.description.Some? then dto.description else c.description,
       isActive := dto.isActive.GetOr(c.isActive))
  }

  // ---------------------------------------------------------------------
  // checkPermission

  /** `user.role`: a populated role document, a role id, or nothing. */
  datatype RoleRef = Populated(role: Role) | RoleId(id: string) | NoRole

  /** `matchesSpecialResource` and `matchesSpecialAction` together. */
  predicate Grants(p: Permission, resource: string, action: string) {
    (IsSpecialResource(p.resource) || p.resource == resource) &&
    (IsSpecialAction(p.action) || p.action == action)
  }

  /** The role a reference names: the populated one, or the stored one. */
  function ResolveRole(roles: seq<Role>, ref: RoleRef): (r: Option<Role>)
    ensures ref.Populated? ==> r == Some(ref.role)
    ensures ref.NoRole? ==> r.None?
    ensures ref.RoleId? ==> (r.Some? <==> IndexOfId(roles, RoleIdOf, ref.id).Some?)
  {
    match ref
    case Populated(role) => Some(role)
    case NoRole => None
    case RoleId(id) => if IndexOfId(roles, RoleIdOf, id).Some? then Some(roles[IndexOfId(roles, RoleIdOf, id).value]) else None
  }

  /** `checkPermission`: 400 when the user, the resource or the action is
      missing, 404 without a role; the superadmin may do anything; anyone
      else needs a permission matching both the resource and the action. */
  function CheckPermission(roles: seq<Role>, user: Option<RoleRef>, resource: string, action: string): (r: Result<bool, Thrown>)
    ensures user.None? || resource == "" || action == "" ==> r == Err(HttpError(400, "Missing required parameters"))
    ensures user.Some? && resource != "" && action != "" && ResolveRole(roles, user.value).None? ==>
              r == Err(HttpError(404, "User role not found"))
    ensures r.Ok? <==> user.Some? && resource != "" && action != "" && ResolveRole(roles, user.value).Some?
    ensures r.Ok? ==> (r.value <==> ResolveRole(roles, user.value).value.name == SuperadminRole ||
                                     exists i :: 0 <= i < |ResolveRole(roles, user.value).value.permissions| &&
                                                 Grants(ResolveRole(roles, user.value).value.permissions[i], resource, action))
  {
    if user.None? || resource == "" || action == "" then Err(HttpError(400, "Missing required parameters"))
    else
      match ResolveRole(roles, user.value)
      case None => Err(HttpError(404, "User role not found"))
      case Some(role) =>
        if role.name == SuperadminRole then Ok(true)
        else Ok(exists i :: 0 <= i < |role.permissions| && Grants(role.permissions[i], resource, action))
  }

  /** Adding a permission to a role never revokes a granted request. */
  lemma CheckPermissionMonotone(role: Role, extra: Permission, resource: string, action: string)
    requires resource != "" && action != ""
    requires CheckPermission([], Some(Populated(role)), resource, action) == Ok(true)
    ensures CheckPermission([], Some(Populated(role.(permissions := role.permissions + [extra]))), resource, action) == Ok(true)
  {
    var grown := role.permissions + [extra];
    if role.name != SuperadminRole {
      var i :| 0 <= i < |role.permissions| && Grants(role.permissions[i], resource, action);
      assert grown[i] == role.permissions[i];
    }
  }

  /** A role holding ('all', 'manage') or ('*', '*') passes every check. */
  lemma WildcardGrantsEverything(role: Role, k: nat, resource: string, action: string)
    requires k < |role.permissions|
    requires IsSpecialResource(role.permissions[k].resource) && IsSpecialAction(role.permissions[k].action)
    requires resource != "" && action != ""
    ensures CheckPermission([], Some(Populated(role)), resource, action) == Ok(true)
  {
    assert Grants(role.permissions[k], resource, action);
  }

  /** Without a special permission, a role passes only for a pair it names. */
  lemma PlainPermissionsExact(role: Role, resource: string, action: string)
    requires role.name != SuperadminRole && resource != "" && action != ""
    requires forall i :: 0 <= i < |role.permissions| ==>
               !IsSpecialResource(role.permissions[i].resource) && !IsSpecialAction(role.permissions[i].action)
    ensures CheckPermission([], Some(Populated(role)), resource, action) == Ok(Permission(resource, action) in role.permissions)
  {
    if Permission(resource, action) in role.permissions {
      var i :| 0 <= i < |role.permissions| && role.permissions[i] == Permission(resource, action);
      assert Grants(role.permissions[i], resource, action);
    }
  }

  // ---------------------------------------------------------------------
  // getPermissions

  /** One pair per allowed action of one resource, in order. */
  function PairsOf(r: Resource): (ps: seq<Permission>)
    ensures |ps| == |r.allowedActions|
    ensures forall i :: 0 <= i < |ps| ==> ps[i] == Permission(r.name, r.allowedActions[i])
  {
    seq(|r.allowedActions|, i requires 0 <= i < |r.allowedActions| => Permission(r.name, r.allowedActions[i]))
  }

  /** Every pair the resources allow, resource by resource. */
  function AllPermissions(resources: seq<Resource>): seq<Permission> {
    if resources == [] then []
    else AllPermissions(resources[..|resources| - 1]) + PairsOf(resources[|resources| - 1])
  }

  function ActionCount(resources: seq<Resource>): nat {
    if resources == [] then 0
    else ActionCount(resources[..|resources| - 1]) + |resources[|resources| - 1].allowedActions|
  }

  /** A pair is listed exactly when some resource of that name allows the
      action; there is one pair per allowed action. */
  lemma {:induction false} AllPermissionsExact(resources: seq<Resource>, p: Permission)
    ensures p in AllPermissions(resources) <==>
            exists i :: 0 <= i < |resources| && resources[i].name == p.resource && p.action in resources[i].allowedActions
    ensures |AllPermissions(resources)| == ActionCount(resources)
    decreases |resources|
  {
    if resources != [] {
      var init := resources[..|resources| - 1];
      var last := resources[|resources| - 1];
      AllPermissionsExact(init, p);
      assert forall i :: 0 <= i < |init| ==> init[i] == resources[i];
      if p in PairsOf(last) {
        var k :| 0 <= k < |PairsOf(last)| && PairsOf(last)[k] == p;
        assert resources[|resources| - 1].name == p.resource && p.action in resources[|resources| - 1].allowedActions;
      }
      if p.resource == last.name && p.action in last.allowedActions {
        var k :| 0 <= k < |last.allowedActions| && last.allowedActions[k] == p.action;
        assert PairsOf(last)[k] == p;
      }
    }
  }

  // ---------------------------------------------------------------------
  // The collections

  /** The role, resource and endpoint-config collections of the store. */
  class AuthzStore {
    var roles: seq<Role>
    var resources: seq<Resource>
    var endpoints: seq<EndpointConfig>

    predicate Valid()
      reads this
    {
      RoleIdsDistinct(roles) && ResourceIdsDistinct(resources) && EndpointIdsDistinct(endpoints)
    }

    constructor (roles0: seq<Role>, resources0: seq<Resource>, endpoints0: seq<EndpointConfig>)
      requires RoleIdsDistinct(roles0) && ResourceIdsDistinct(resources0) && EndpointIdsDistinct(endpoints0)
      ensures Valid()
      ensures roles == roles0 && resources == resources0 && endpoints == endpoints0
    {
      roles, resources, endpoints := roles0, resources0, endpoints0;
    }

    /** `createRole`; `id` is the fresh id the store assigns. Nothing is
        stored on a refusal. */
    method CreateRole(dto: CreateRoleDto, id: string) returns (r: Result<Role, Thrown>)
      requires Valid()
      requires forall i :: 0 <= i < |roles| ==> roles[i].id != id
      modifies this
      ensures Valid()
      ensures r == CreateRoleSpec(old(roles), old(resources), dto, id)
      ensures roles == if r.Ok? then old(roles) + [r.value] else old(roles)
      ensures resources == old(resources) && endpoints == old(endpoints)
    {
      r := CreateRoleSpec(roles, resources, dto, id);
      if r.Ok? {
        roles := roles + [r.value];
      }
    }

    /** `updateRole`: the merged role replaces the stored one in place. */
    method UpdateRole(id: string, dto: UpdateRoleDto, caller: Option<Role>) returns (r: Result<Role, Thrown>)
      requires Valid()
      modifies this
      ensures Valid()
      ensures var spec := UpdateRoleSpec(old(roles), old(resources), id, dto, caller);
              (r.Ok? <==> spec.Ok?) &&
              (r.Ok? ==> r.value == spec.value.1 && roles == old(roles)[spec.value.0 := spec.value.1]) &&
              (r.Err? ==> r.error == spec.error && roles == old(roles))
      ensures resources == old(resources) && endpoints == old(endpoints)
    {
      var spec := UpdateRoleSpec(roles, resources, id, dto, caller);
      if spec.Err? {
        return Err(spec.error);
      }
      UpdateKeepsIdentity(roles, resources, id, dto, caller);
      roles := roles[spec.value.0 := spec.value.1];
      r := Ok(spec.value.1);
    }

    /** `deleteRole`. */
    method DeleteRole(id: string) returns (r: Result<(), Thrown>)
      requires Valid()
      modifies this
      ensures Valid()
      ensures var spec := DeleteRoleSpec(old(roles), id);
              (r.Ok? <==> spec.Ok?) &&
              (r.Ok? ==> roles == RemoveAt(old(roles), spec.value)) &&
              (r.Err? ==> r.error == spec.error && roles == old(roles))
      ensures forall i :: 0 <= i < |roles| ==> roles[i].id != id || r.Err?
      ensures resources == old(resources) && endpoints == old(endpoints)
    {
      var spec := DeleteRoleSpec(roles, id);
      if spec.Err? {
        return Err(spec.error);
      }
      roles := RemoveAt(roles, spec.value);
      r := Ok(());
    }

    method CreateResource(dto: CreateResourceDto, id: string) returns (r: Result<Resource, Thrown>)
      requires Valid()
      requires forall i :: 0 <= i < |resources| ==> resources[i].id != id
      modifies this
      ensures Valid()
      ensures r == CreateResourceSpec(old(resources), dto, id)
      ensures resources == if r.Ok? then old(resources) + [r.value] else old(resources)
      ensures roles == old(roles) && endpoints == old(endpoints)
    {
      r := CreateResourceSpec(resources, dto, id);
      if r.Ok? {
        resources := resources + [r.value];
      }
    }

    /** `updateResource`: 404, or the fields present replace the old ones. */
    method UpdateResource(id: string, dto: UpdateResourceDto) returns (r: Result<Resource, Thrown>)
      requires Valid()
      modifies this
      ensures Valid()
      ensures IndexOfId(old(resources), ResourceIdOf, id).None? ==> r == Err(HttpError(404, "Resource not found")) && resources == old(resources)
      ensures IndexOfId(old(resources), ResourceIdOf, id).Some? ==>
                var k := IndexOfId(old(resources), ResourceIdOf, id).value;
                r == Ok(MergeResource(old(resources)[k], dto)) && resources == old(resources)[k := r.value]
      ensures roles == old(roles) && endpoints == old(endpoints)
    {
      var k := IndexOfId(resources, ResourceIdOf, id);
      if k.None? {
        return Err(HttpError(404, "Resource not found"));
      }
      var merged := MergeResource(resources[k.value], dto);
      resources := resources[k.value := merged];
      r := Ok(merged);
    }

    /** `deleteResource`: roles naming the resource keep their permissions. */
    method DeleteResource(id: string) returns (r: Result<(), Thrown>)
      requires Valid()
      modifies this
      ensures Valid()
      ensures IndexOfId(old(resources), ResourceIdOf, id).None? ==> r == Err(HttpError(404, "Resource not found")) && resources == old(resources)
      ensures IndexOfId(old(resources), ResourceIdOf, id).Some? ==>
                r == Ok(()) && resources == RemoveAt(old(resources), IndexOfId(old(resources), ResourceIdOf, id).value)
      ensures roles == old(roles) && endpoints == old(endpoints)
    {
      var k := IndexOfId(resources, ResourceIdOf, id);
      if k.None? {
        return Err(HttpError(404, "Resource not found"));
      }
      resources := RemoveAt(resources, k.value);
      r := Ok(());
    }

    method CreateEndpointConfig(dto: CreateEndpointConfigDto, id: string) returns (r: Result<EndpointConfig, Thrown>)
      requires Valid()
      requires forall i :: 0 <= i < |endpoints| ==> endpoints[i].id != id
      modifies this
      ensures Valid()
      ensures r == CreateEndpointSpec(old(endpoints), dto, id)
      ensures endpoints == if r.Ok? then old(endpoints) + [r.value] else old(endpoints)
      ensures roles == old(roles) && resources == old(resources)
    {
      r := CreateEndpointSpec(endpoints, dto, id);
      if r.Ok? {
        endpoints := endpoints + [r.value];
      }
    }

    method UpdateEndpointConfig(id: string, dto: UpdateEndpointConfigDto) returns (r: Result<EndpointConfig, Thrown>)
      requires Valid()
      modifies this
      ensures Valid()
      ensures IndexOfId(old(endpoints), EndpointIdOf, id).None? ==>
                r == Err(HttpError(404, "Endpoint config not found")) && endpoints == old(endpoints)
      ensures IndexOfId(old(endpoints), EndpointIdOf, id).Some? ==>
                var k := IndexOfId(old(endpoints), EndpointIdOf, id).value;
                r == Ok(MergeEndpoint(old(endpoints)[k], dto)) && endpoints == old(endpoints)[k := r.value]
      ensures roles == old(roles) && resources == old(resources)
    {
      var k := IndexOfId(endpoints, EndpointIdOf, id);
      if k.None? {
        return Err(HttpError(404, "Endpoint config not found"));
      }
      var merged := MergeEndpoint(endpoints[k.value], dto);
      endpoints := endpoints[k.value := merged];
      r := Ok(merged);
    }

    method DeleteEndpointConfig(id: string) returns (r: Result<(), Thrown>)
      requires Valid()
      modifies this
      ensures Valid()
      ensures IndexOfId(old(endpoints), EndpointIdOf, id).None? ==>
                r == Err(HttpError(404, "Endpoint config not found")) && endpoints == old(endpoints)
      ensures IndexOfId(old(endpoints), EndpointIdOf, id).Some? ==>
                r == Ok(()) && endpoints == RemoveAt(old(endpoints), IndexOfId(old(endpoints), EndpointIdOf, id).value)
      ensures roles == old(roles) && resources == old(resources)
    {
      var k := IndexOfId(endpoints, EndpointIdOf, id);
      if k.None? {
        return Err(HttpError(404, "Endpoint config not found"));
      }
      endpoints := RemoveAt(endpoints, k.value);
      r := Ok(());
    }

    /** `getRoleById`: the role with that id, or 404. */
    method GetRoleById(id: string) returns (r: Result<Role, Thrown>)
      ensures r.Ok? <==> exists i :: 0 <= i < |roles| && roles[i].id == id
      ensures r.Ok? ==> r.value in roles && r.value.id == id
      ensures r.Err? ==> r.error == HttpError(404, "Role not found")
    {
      var k := IndexOfId(roles, RoleIdOf, id);
      if k.None? {
        return Err(HttpError(404, "Role not found"));
      }
      r := Ok(roles[k.value]);
    }

    /** `getResourceById`: the resource with that id, or 404. */
    method GetResourceById(id: string) returns (r: Result<Resource, Thrown>)
      ensures r.Ok? <==> exists i :: 0 <= i < |resources| && resources[i].id == id
      ensures r.Ok? ==> r.value in resources && r.value.id == id
      ensures r.Err? ==> r.error == HttpError(404, "Resource not found")
    {
      var k := IndexOfId(resources, ResourceIdOf, id);
      if k.None? {
        return Err(HttpError(404, "Resource not found"));
      }
      r := Ok(resources[k.value]);
    }

    /** `getEndpointConfigById`: the endpoint config with that id, or 404. */
    method GetEndpointConfigById(id: string) returns (r: Result<EndpointConfig, Thrown>)
      ensures r.Ok? <==> exists i :: 0 <= i < |endpoints| && endpoints[i].id == id
      ensures r.Ok? ==> r.value in endpoints && r.value.id == id
      ensures r.Err? ==> r.error == HttpError(404, "Endpoint config not found")
    {
      var k := IndexOfId(endpoints, EndpointIdOf, id);
      if k.None? {
        return Err(HttpError(404, "Endpoint config not found"));
      }
      r := Ok(endpoints[k.value]);
    }

    /** `getPermissions`: the nested `forEach` over resources and their
        allowed actions. */
    method GetPermissions() returns (permissions: seq<Permission>)
      ensures permissions == AllPermissions(resources)
    {
      permissions := [];
      var i := 0;
      while i < |resources|
        invariant 0 <= i <= |resources|
        invariant permissions == AllPermissions(resources[..i])
      {
        var resource := resources[i];
        var j := 0;
        while j < |resource.allowedActions|
          invariant 0 <= j <= |resource.allowedActions|
          invariant permissions == AllPermissions(resources[..i]) + PairsOf(resource)[..j]
        {
          assert PairsOf(resource)[..j + 1] == PairsOf(resource)[..j] + [Permission(resource.name, resource.allowedActions[j])];
          permissions := permissions + [Permission(resource.name, resource.allowedActions[j])];
          j := j + 1;
        }
        assert resources[..i + 1][..i] == resources[..i];
        assert PairsOf(resource)[..j] == PairsOf(resource);
        i := i + 1;
      }
      assert resources[..i] == resources;
    }
  }
}
