/** The role migration (`RoleMigration`): it seeds the default resources and
    the mapped roles, then points every user at the role its old role name
    maps to, counting what it did; `down` removes what it seeded. The whole
    of `up` and of `down` runs in one transaction, so a thrown error leaves
    the store as it was. */
module RoleMigration {
  import opened Wrappers
  import AuthzService

  type Permission = AuthzService.Permission

  datatype ResourceSeed = ResourceSeed(name: string, description: string, allowedActions: seq<string>)

  datatype RoleSeed = RoleSeed(name: string, description: string, permissions: seq<Permission>)

  /** A user; `role` is the old role name, or "" when unset. */
  datatype User = User(id: string, username: string, role: string)

  datatype StoredRole = StoredRole(id: string, name: string, description: string,
                                   permissions: seq<Permission>, isSystem: bool)

  datatype StoredResource = StoredResource(name: string, description: string,
                                           allowedActions: seq<string>, isActive: bool)

  datatype MigrationError = MigrationError(userId: string, oldRole: string, error: string)

  /** `IMigrationContext` without the list of old roles, which is only logged. */
  datatype Context = Context(newRoles: map<string, string>, errors: seq<MigrationError>,
                             processed: nat, skipped: nat, updated: nat)

  const CrudActions: seq<string> := ["manage", "create", "read", "update", "delete", "list"]

  const DefaultResources: seq<ResourceSeed> := [
    ResourceSeed("users", "User management", CrudActions),
    ResourceSeed("roles", "Role management", CrudActions),
    ResourceSeed("resources", "Resource management", CrudActions)
  ]

  const DefaultRole: string := "user"

  function P(resource: string, action: string): Permission {
    AuthzService.Permission(resource, action)
  }

  /** `roleMapping`, in the order `Object.entries` lists it. */
  const RoleMapping: seq<(string, RoleSeed)> := [
    ("superadmin", RoleSeed("superadmin", "Super administrator with unrestricted access to all resources",
                            [P("all", "*")])),
    ("user", RoleSeed("user", "Default role with basic read access",
                      [P("users", "read"), P("users", "list"), P("resources", "read"), P("resources", "list")])),
    ("admin", RoleSeed("admin", "System administrator with full access to defined resources",
                       [P("users", "manage"), P("roles", "manage"), P("resources", "manage")])),
    ("manager", RoleSeed("manager", "Manager with full access to users",
                         [P("users", "manage"), P("resources", "read"), P("resources", "list")])),
    ("standard_user", RoleSeed("standard_user", "Standard user with expanded permissions",
                               [P("users", "read"), P("users", "update"), P("users", "list"),
                                P("resources", "read"), P("resources", "list")]))
  ]

  function MappedNames(): set<string> {
    set i | 0 <= i < |RoleMapping| :: RoleMapping[i].1.name
  }

  function DefaultResourceNames(): set<string> {
    set i | 0 <= i < |DefaultResources| :: DefaultResources[i].name
  }

  /** The default resources as the authz service stores them. */
  function SeededResources(): seq<AuthzService.Resource> {
    seq(|DefaultResources|, i requires 0 <= i < |DefaultResources| =>
      AuthzService.Resource("", DefaultResources[i].name, Some(DefaultResources[i].description),
                            DefaultResources[i].allowedActions, true))
  }

  /** Every seeded role would pass the service's own permission validation
      against the seeded resources. */
  lemma SeededRolesAreValid()
    ensures forall i :: 0 <= i < |RoleMapping| ==>
              AuthzService.ValidatePermissions(SeededResources(), RoleMapping[i].1.permissions).Ok?
  {
    var rs := SeededResources();
    assert rs[0].name == "users" && rs[1].name == "roles" && rs[2].name == "resources";
    assert AuthzService.ActionsOf(rs, "users") == Some(CrudActions);
    assert AuthzService.ActionsOf(rs, "roles") == Some(CrudActions);
    assert AuthzService.ActionsOf(rs, "resources") == Some(CrudActions);
    MappingOverDefaults();
    forall i | 0 <= i < |RoleMapping|
      ensures AuthzService.ValidatePermissions(rs, RoleMapping[i].1.permissions).Ok?
    {
      var ps := RoleMapping[i].1.permissions;
      forall j | 0 <= j < |ps| ensures AuthzService.Permitted(rs, ps[j]) {
        PermittedOverDefaults(rs, ps[j]);
      }
      AuthzService.ValidateOkIff(rs, ps);
    }
  }

  /** A permission on a special resource, or with a CRUD action on one of
      the default resources. */
  predicate OverDefaults(p: Permission) {
    AuthzService.IsSpecialResource(p.resource) ||
    ((p.resource == "users" || p.resource == "roles" || p.resource == "resources") && p.action in CrudActions)
  }

  lemma MappingOverDefaults()
    ensures forall i, j :: 0 <= i < |RoleMapping| && 0 <= j < |RoleMapping[i].1.permissions| ==>
              OverDefaults(RoleMapping[i].1.permissions[j])
  {
  }

  lemma PermittedOverDefaults(rs: seq<AuthzService.Resource>, p: Permission)
    requires AuthzService.ActionsOf(rs, "users") == Some(CrudActions)
    requires AuthzService.ActionsOf(rs, "roles") == Some(CrudActions)
    requires AuthzService.ActionsOf(rs, "resources") == Some(CrudActions)
    requires OverDefaults(p)
    ensures AuthzService.Permitted(rs, p)
  {
  }

  // ---------------------------------------------------------------------
  // The per-user step

  /** The role id a user gets: the default role without an old role, the
      mapped id for a mapped name, and the default role for any other name. */
  function NewRoleFor(newRoles: map<string, string>, defaultId: string, oldRole: string): (id: string)
    ensures oldRole == "" ==> id == defaultId
    ensures oldRole != "" && oldRole in newRoles ==> id == newRoles[oldRole]
    ensures oldRole != "" && oldRole !in newRoles ==> id == defaultId
  {
    if oldRole == "" then defaultId
    else if oldRole in newRoles then newRoles[oldRole] else defaultId
  }

  /** The message recorded for a failed update. */
  function ErrorText(e: Thrown): string {
    if e.IsErrorInstance() then e.message else "Unknown error"
  }

  /** The users after the loop and the counters it keeps. */
  datatype Progress = Progress(users: seq<User>, errors: seq<MigrationError>, processed: nat, updated: nat)

  /** The loop over the users, one user at a time; `updateError` says which
      `updateOne` calls throw. */
  function ProcessUsers(newRoles: map<string, string>, defaultId: string, users: seq<User>,
                        updateError: string -> Option<Thrown>): Progress
  {
    if users == [] then Progress([], [], 0, 0)
    else
      ProcessUser(newRoles, defaultId, ProcessUsers(newRoles, defaultId, users[..|users| - 1], updateError),
                  users[|users| - 1], updateError)
  }

  /** One turn of the loop: the user is counted, then either carries its
      new role or is kept as it was and recorded as an error. */
  function ProcessUser(newRoles: map<string, string>, defaultId: string, before: Progress, u: User,
                       updateError: string -> Option<Thrown>): Progress
  {
    var failure := updateError(u.id);
    if failure.Some? then
      Progress(before.users + [u],
               before.errors + [MigrationError(u.id, if u.role == "" then "undefined" else u.role, ErrorText(failure.value))],
               before.processed + 1, before.updated)
    else
      Progress(before.users + [u.(role := NewRoleFor(newRoles, defaultId, u.role))],
               before.errors, before.processed + 1, before.updated + 1)
  }

  /** The loop's step: one more user processed. */
  lemma ProcessUsersSnoc(newRoles: map<string, string>, defaultId: string, users: seq<User>, i: nat,
                         updateError: string -> Option<Thrown>)
    requires i < |users|
    ensures ProcessUsers(newRoles, defaultId, users[..i + 1], updateError) ==
            ProcessUser(newRoles, defaultId, ProcessUsers(newRoles, defaultId, users[..i], updateError), users[i], updateError)
  {
    assert users[..i + 1][..i] == users[..i];
  }

  /** The user as the loop leaves it: with its new role when its update
      succeeds, unchanged when the update throws. */
  function Migrated(newRoles: map<string, string>, defaultId: string, u: User,
                    updateError: string -> Option<Thrown>): User
  {
    if updateError(u.id).Some? then u else u.(role := NewRoleFor(newRoles, defaultId, u.role))
  }

  /** A list holding every user as the loop leaves it is the users of the
      loop's progress. */
  lemma MigratedAll(newRoles: map<string, string>, defaultId: string, users0: seq<User>,
                    updateError: string -> Option<Thrown>, users: seq<User>)
    requires |users| == |users0|
    requires forall j :: 0 <= j < |users0| ==> users[j] == Migrated(newRoles, defaultId, users0[j], updateError)
    ensures users == ProcessUsers(newRoles, defaultId, users0, updateError).users
  {
    var p := ProcessUsers(newRoles, defaultId, users0, updateError);
    ProcessUsersCounts(newRoles, defaultId, users0, updateError);
    forall j | 0 <= j < |users0| ensures p.users[j] == users[j] {
      ProcessUsersEach(newRoles, defaultId, users0, updateError, j);
    }
  }

  /** Every user is processed and either updated or recorded as an error. */
  lemma {:induction false} ProcessUsersCounts(newRoles: map<string, string>, defaultId: string, users: seq<User>,
                                              updateError: string -> Option<Thrown>)
    ensures var p := ProcessUsers(newRoles, defaultId, users, updateError);
            p.processed == |users| && p.processed == p.updated + |p.errors| && |p.users| == |users|
    decreases |users|
  {
    if users != [] {
      ProcessUsersCounts(newRoles, defaultId, users[..|users| - 1], updateError);
    }
  }

  /** A user whose update succeeds has the role `NewRoleFor` picks; one
      whose update throws keeps its old role and is recorded once. */
  lemma {:induction false} ProcessUsersEach(newRoles: map<string, string>, defaultId: string, users: seq<User>,
                                            updateError: string -> Option<Thrown>, i: nat)
    requires i < |users|
    ensures var p := ProcessUsers(newRoles, defaultId, users, updateError);
            |p.users| == |users| &&
            (updateError(users[i].id).None? ==> p.users[i] == users[i].(role := NewRoleFor(newRoles, defaultId, users[i].role))) &&
            (updateError(users[i].id).Some? ==>
               (p.users[i] == users[i] &&
                MigrationError(users[i].id, if users[i].role == "" then "undefined" else users[i].role,
                               ErrorText(updateError(users[i].id).value)) in p.errors))
    decreases |users|
  {
    ProcessUsersCounts(newRoles, defaultId, users, updateError);
    if i < |users| - 1 {
      ProcessUsersEach(newRoles, defaultId, users[..|users| - 1], updateError, i);
      ProcessUsersCounts(newRoles, defaultId, users[..|users| - 1], updateError);
      var before := ProcessUsers(newRoles, defaultId, users[..|users| - 1], updateError);
      var p := ProcessUsers(newRoles, defaultId, users, updateError);
      assert p.users[..|before.users|] == before.users;
      assert p.users[i] == before.users[i];
    }
  }

  /** The names `down` deletes roles by. */
  function RemainingRoles(roles: seq<StoredRole>): (r: seq<StoredRole>)
    ensures forall x :: x in r <==> x in roles && x.name !in MappedNames()
  {
    if roles == [] then []
    else
      assert forall x :: x in roles <==> x == roles[0] || x in roles[1..];
      (if roles[0].name in MappedNames() then [] else [roles[0]]) + RemainingRoles(roles[1..])
  }

  function RemainingResources(resources: seq<StoredResource>): (r: seq<StoredResource>)
    ensures forall x :: x in r <==> x in resources && x.name !in DefaultResourceNames()
  {
    if resources == [] then []
    else
      assert forall x :: x in resources <==> x == resources[0] || x in resources[1..];
      (if resources[0].name in DefaultResourceNames() then [] else [resources[0]]) + RemainingResources(resources[1..])
  }

  // ---------------------------------------------------------------------
  // Seeding by name

  /** `resourceModel.findOne({ name })` followed by `create` when nothing
      was found: the resources after one `createResource`. */
  function WithResource(rs: seq<StoredResource>, seed: ResourceSeed): seq<StoredResource> {
    if exists i :: 0 <= i < |rs| && rs[i].name == seed.name then rs
    else rs + [StoredResource(seed.name, seed.description, seed.allowedActions, true)]
  }

  /** The resources after the resource loop of `up` over `seeds`. */
  function SeedResources(rs: seq<StoredResource>, seeds: seq<ResourceSeed>): seq<StoredResource>
    decreases |seeds|
  {
    if seeds == [] then rs else SeedResources(WithResource(rs, seeds[0]), seeds[1..])
  }

  /** Seeding keeps every resource already there, in place, and leaves a
      resource under every seeded name. */
  lemma {:induction false} SeedResourcesHasAll(rs: seq<StoredResource>, seeds: seq<ResourceSeed>)
    ensures var r := SeedResources(rs, seeds);
            |r| >= |rs| && r[..|rs|] == rs &&
            forall j :: 0 <= j < |seeds| ==> exists i :: 0 <= i < |r| && r[i].name == seeds[j].name
    decreases |seeds|
  {
    if seeds != [] {
      var w := WithResource(rs, seeds[0]);
      SeedResourcesHasAll(w, seeds[1..]);
      var r := SeedResources(rs, seeds);
      assert r == SeedResources(w, seeds[1..]);
      assert r[..|rs|] == r[..|w|][..|rs|];
      var i0 :| 0 <= i0 < |w| && w[i0].name == seeds[0].name;
      assert r[i0] == r[..|w|][i0];
      forall j | 0 <= j < |seeds| ensures exists i :: 0 <= i < |r| && r[i].name == seeds[j].name {
        if j == 0 {
          assert r[i0].name == seeds[0].name;
        } else {
          assert seeds[j] == seeds[1..][j - 1];
        }
      }
    }
  }

  /** `roleModel.findOne({ name })`: the id of the first role with that name. */
  function RoleIdByName(roles: seq<StoredRole>, name: string): (id: Option<string>)
    ensures id.None? <==> forall i :: 0 <= i < |roles| ==> roles[i].name != name
    ensures id.Some? ==> exists i :: 0 <= i < |roles| && roles[i].name == name && roles[i].id == id.value
  {
    if roles == [] then None
    else if roles[0].name == name then Some(roles[0].id)
    else
      var id := RoleIdByName(roles[1..], name);
      assert forall i :: 1 <= i < |roles| ==> roles[1..][i - 1] == roles[i];
      id
  }

  /** Appending roles never changes what an earlier role with the name
      answers, and otherwise the appended roles answer. */
  lemma {:induction false} RoleIdByNameAppend(a: seq<StoredRole>, b: seq<StoredRole>, name: string)
    ensures RoleIdByName(a + b, name) == if RoleIdByName(a, name).Some? then RoleIdByName(a, name) else RoleIdByName(b, name)
  {
    if a == [] {
      assert a + b == b;
    } else {
      assert (a + b)[1..] == a[1..] + b;
      RoleIdByNameAppend(a[1..], b, name);
    }
  }

  /** A mapping whose keys are its roles' names, no two entries sharing one. */
  predicate KeyedByName(mapping: seq<(string, RoleSeed)>) {
    (forall k :: 0 <= k < |mapping| ==> mapping[k].0 == mapping[k].1.name) &&
    (forall j, k :: 0 <= j < k < |mapping| ==> mapping[j].1.name != mapping[k].1.name)
  }

  lemma MappingNames()
    ensures KeyedByName(RoleMapping)
    ensures RoleMapping[1].0 == DefaultRole
  {
  }

  /** The role loop of `up` over `mapping` after its first `n` entries,
      started from the roles `roles0`: an entry is mapped exactly when a
      role with its name already existed or its creation did not throw; a
      mapped entry points at the first role with its name; an unmapped
      entry's name names no role; and nothing else is mapped. */
  ghost predicate MappedUpTo(mapping: seq<(string, RoleSeed)>, roles0: seq<StoredRole>, roles: seq<StoredRole>,
                             newRoles: map<string, string>, createFails: string -> bool, n: nat)
    requires n <= |mapping|
  {
    (forall key :: key in newRoles ==> exists k :: 0 <= k < n && mapping[k].0 == key) &&
    forall k :: 0 <= k < n ==> EntryMapped(mapping, roles0, roles, newRoles, createFails, k)
  }

  /** The whole role loop of `up`. */
  ghost predicate Mapped(roles0: seq<StoredRole>, roles: seq<StoredRole>, newRoles: map<string, string>,
                         createFails: string -> bool)
  {
    MappedUpTo(RoleMapping, roles0, roles, newRoles, createFails, |RoleMapping|)
  }

  /** One entry of the finished role loop. */
  lemma MappedEntry(roles0: seq<StoredRole>, roles: seq<StoredRole>, newRoles: map<string, string>,
                    createFails: string -> bool, k: nat)
    requires Mapped(roles0, roles, newRoles, createFails) && k < |RoleMapping|
    ensures EntryMapped(RoleMapping, roles0, roles, newRoles, createFails, k)
  {
  }

  /** `createRole` for one seed, as its outcome on the roles: the first role
      with the name is reused, a failing creation gives nothing, and
      otherwise a new role is appended. */
  ghost predicate CreatedRole(seed: RoleSeed, fails: bool, newId: string,
                              before: seq<StoredRole>, after: seq<StoredRole>, id: Option<string>)
  {
    (RoleIdByName(before, seed.name).Some? ==> after == before && id == RoleIdByName(before, seed.name)) &&
    (RoleIdByName(before, seed.name).None? ==>
       if fails then id.None? && after == before
       else id == Some(newId) && after == before + [StoredRole(newId, seed.name, seed.description, seed.permissions, true)])
  }

  /** After `createRole`, the seed's name answers the id it returned, and
      every other name answers as before. */
  lemma CreatedRoleLookup(seed: RoleSeed, fails: bool, newId: string,
                          before: seq<StoredRole>, after: seq<StoredRole>, id: Option<string>)
    requires CreatedRole(seed, fails, newId, before, after, id)
    ensures RoleIdByName(after, seed.name) == id
    ensures forall n :: n != seed.name ==> RoleIdByName(after, n) == RoleIdByName(before, n)
    ensures |after| >= |before| && after[..|before|] == before
  {
    if after != before {
      var x := after[|after| - 1];
      assert before + [x] == after;
      RoleIdByNameAppend(before, [x], seed.name);
      forall n | n != seed.name ensures RoleIdByName(after, n) == RoleIdByName(before, n) {
        RoleIdByNameAppend(before, [x], n);
      }
    }
  }

  /** The facts `MappedUpTo` holds for one entry. */
  ghost predicate EntryMapped(mapping: seq<(string, RoleSeed)>, roles0: seq<StoredRole>, roles: seq<StoredRole>,
                              newRoles: map<string, string>, createFails: string -> bool, j: nat)
    requires j < |mapping|
  {
    (mapping[j].0 in newRoles <==>
       RoleIdByName(roles0, mapping[j].1.name).Some? || !createFails(mapping[j].1.name)) &&
    (mapping[j].0 in newRoles ==> RoleIdByName(roles, mapping[j].1.name) == Some(newRoles[mapping[j].0])) &&
    (mapping[j].0 !in newRoles ==> RoleIdByName(roles, mapping[j].1.name).None?)
  }

  /** One turn of the role loop, seen from entry `j` at or before the one
      the turn handles. */
  lemma SeedRoleStepEntry(mapping: seq<(string, RoleSeed)>, roles0: seq<StoredRole>, before: seq<StoredRole>,
                          after: seq<StoredRole>, mapBefore: map<string, string>, mapAfter: map<string, string>,
                          createFails: string -> bool, k: nat, id: Option<string>, newId: string, j: nat)
    requires KeyedByName(mapping) && j <= k < |mapping|
    requires j < k ==> EntryMapped(mapping, roles0, before, mapBefore, createFails, j)
    requires mapping[k].0 !in mapBefore
    requires RoleIdByName(before, mapping[k].1.name) == RoleIdByName(roles0, mapping[k].1.name)
    requires RoleIdByName(after, mapping[k].1.name) == id
    requires forall n :: n != mapping[k].1.name ==> RoleIdByName(after, n) == RoleIdByName(before, n)
    requires CreatedRole(mapping[k].1, createFails(mapping[k].1.name), newId, before, after, id)
    requires mapAfter == if id.Some? then mapBefore[mapping[k].0 := id.value] else mapBefore
    ensures EntryMapped(mapping, roles0, after, mapAfter, createFails, j)
  {
    if j < k {
      assert mapping[j].1.name != mapping[k].1.name && mapping[j].0 != mapping[k].0;
      assert mapping[j].0 in mapAfter <==> mapping[j].0 in mapBefore;
    } else {
      assert mapping[k].0 in mapAfter <==> id.Some?;
    }
  }

  /** One turn of the role loop keeps `MappedUpTo`, one entry further:
      `createRole` either finds the role, fails, or appends a role under the
      entry's name, which no other entry shares. */
  lemma SeedRoleStep(mapping: seq<(string, RoleSeed)>, roles0: seq<StoredRole>, before: seq<StoredRole>,
                     after: seq<StoredRole>, mapBefore: map<string, string>, mapAfter: map<string, string>,
                     createFails: string -> bool, k: nat, id: Option<string>, newId: string)
    requires KeyedByName(mapping) && k < |mapping|
    requires |before| >= |roles0| && before[..|roles0|] == roles0
    requires MappedUpTo(mapping, roles0, before, mapBefore, createFails, k)
    requires forall j :: k <= j < |mapping| ==>
               RoleIdByName(before, mapping[j].1.name) == RoleIdByName(roles0, mapping[j].1.name)
    requires CreatedRole(mapping[k].1, createFails(mapping[k].1.name), newId, before, after, id)
    requires mapAfter == if id.Some? then mapBefore[mapping[k].0 := id.value] else mapBefore
    ensures |after| >= |roles0| && after[..|roles0|] == roles0
    ensures MappedUpTo(mapping, roles0, after, mapAfter, createFails, k + 1)
    ensures forall j :: k + 1 <= j < |mapping| ==>
              RoleIdByName(after, mapping[j].1.name) == RoleIdByName(roles0, mapping[j].1.name)
  {
    var seed := mapping[k].1;
    var key := mapping[k].0;
    CreatedRoleLookup(seed, createFails(seed.name), newId, before, after, id);
    assert after[..|roles0|] == after[..|before|][..|roles0|];
    assert key !in mapBefore;
    forall j | 0 <= j < k + 1 ensures EntryMapped(mapping, roles0, after, mapAfter, createFails, j) {
      SeedRoleStepEntry(mapping, roles0, before, after, mapBefore, mapAfter, createFails, k, id, newId, j);
    }
    forall key' | key' in mapAfter ensures exists j :: 0 <= j < k + 1 && mapping[j].0 == key' {
      if key' != key {
        var j :| 0 <= j < k && mapping[j].0 == key';
      }
    }
  }

  /** After the role loop, every mapped name points at the first role
      bearing that name. */
  lemma {:induction false} MappedKeyNamesRole(roles0: seq<StoredRole>, roles: seq<StoredRole>,
                                              newRoles: map<string, string>, createFails: string -> bool, key: string)
    requires Mapped(roles0, roles, newRoles, createFails) && key in newRoles
    ensures RoleIdByName(roles, key) == Some(newRoles[key])
  {
    MappingNames();
    var k :| 0 <= k < |RoleMapping| && RoleMapping[k].0 == key;
    MappedEntry(roles0, roles, newRoles, createFails, k);
  }

  /** What `up` promises each user whose update goes through: a user whose
      old role name was mapped now holds the id of the role with that name,
      and any other user holds the id of the default role `user`. */
  lemma {:induction false} MigratedUserRole(roles0: seq<StoredRole>, roles: seq<StoredRole>,
                                            newRoles: map<string, string>, createFails: string -> bool,
                                            users: seq<User>, updateError: string -> Option<Thrown>, i: nat)
    requires Mapped(roles0, roles, newRoles, createFails) && DefaultRole in newRoles
    requires i < |users| && updateError(users[i].id).None?
    ensures var p := ProcessUsers(newRoles, newRoles[DefaultRole], users, updateError);
            |p.users| == |users| &&
            (users[i].role != "" && users[i].role in newRoles ==> RoleIdByName(roles, users[i].role) == Some(p.users[i].role)) &&
            (users[i].role == "" || users[i].role !in newRoles ==> RoleIdByName(roles, DefaultRole) == Some(p.users[i].role))
  {
    ProcessUsersEach(newRoles, newRoles[DefaultRole], users, updateError, i);
    MappedKeyNamesRole(roles0, roles, newRoles, createFails, DefaultRole);
    if users[i].role != "" && users[i].role in newRoles {
      MappedKeyNamesRole(roles0, roles, newRoles, createFails, users[i].role);
    }
  }

  /** When no creation throws, every entry of the mapping is mapped, to the
      role with its name. */
  lemma {:induction false} AllMappedWithoutFailures(roles0: seq<StoredRole>, roles: seq<StoredRole>,
                                                    newRoles: map<string, string>, createFails: string -> bool)
    requires Mapped(roles0, roles, newRoles, createFails)
    requires forall k :: 0 <= k < |RoleMapping| ==> !createFails(RoleMapping[k].1.name)
    ensures forall k :: 0 <= k < |RoleMapping| ==>
              RoleMapping[k].0 in newRoles && RoleIdByName(roles, RoleMapping[k].1.name) == Some(newRoles[RoleMapping[k].0])
  {
    forall k | 0 <= k < |RoleMapping|
      ensures RoleMapping[k].0 in newRoles && RoleIdByName(roles, RoleMapping[k].1.name) == Some(newRoles[RoleMapping[k].0])
    {
      MappedEntry(roles0, roles, newRoles, createFails, k);
    }
  }

  // ---------------------------------------------------------------------
  // The store the migration runs against

  class MigrationStore {
    var users: seq<User>
    var roles: seq<StoredRole>
    var resources: seq<StoredResource>

    constructor (users0: seq<User>, roles0: seq<StoredRole>, resources0: seq<StoredResource>)
      ensures users == users0 && roles == roles0 && resources == resources0
    {
      users, roles, resources := users0, roles0, resources0;
    }

    /** `createResource`: seeded, active, only when no resource has the name. */
    method CreateResource(seed: ResourceSeed)
      modifies this
      ensures users == old(users) && roles == old(roles)
      ensures resources == WithResource(old(resources), seed)
    {
      var i := 0;
      while i < |resources|
        invariant 0 <= i <= |resources|
        invariant forall j :: 0 <= j < i ==> resources[j].name != seed.name
      {
        if resources[i].name == seed.name {
          return;
        }
        i := i + 1;
      }
      resources := resources + [StoredResource(seed.name, seed.description, seed.allowedActions, true)];
    }

    /** `createRole`: the id of the first role with the seed's name, else a
        new system role with id `newId`; a failing creation gives `None`. */
    method CreateRole(seed: RoleSeed, newId: string, fails: bool) returns (id: Option<string>)
      modifies this
      ensures users == old(users) && resources == old(resources)
      ensures CreatedRole(seed, fails, newId, old(roles), roles, id)
    {
      id := RoleIdByName(roles, seed.name);
      if id.Some? {
        return;
      }
      if fails {
        return;
      }
      roles := roles + [StoredRole(newId, seed.name, seed.description, seed.permissions, true)];
      id := Some(newId);
    }

    /** The resource loop and the role loop of `up`: the mapping from an old
        role name to the id of its seeded role, for the roles obtained. */
    method SeedRoles(idFor: string -> string, createFails: string -> bool) returns (newRoles: map<string, string>)
      modifies this
      ensures users == old(users)
      ensures resources == SeedResources(old(resources), DefaultResources)
      ensures |roles| >= |old(roles)| && roles[..|old(roles)|] == old(roles)
      ensures Mapped(old(roles), roles, newRoles, createFails)
    {
      var k := 0;
      while k < |DefaultResources|
        invariant k <= |DefaultResources|
        invariant users == old(users) && roles == old(roles)
        invariant SeedResources(resources, DefaultResources[k..]) == SeedResources(old(resources), DefaultResources)
      {
        assert DefaultResources[k..][1..] == DefaultResources[k + 1..];
        CreateResource(DefaultResources[k]);
        k := k + 1;
      }
      assert DefaultResources[k..] == [];
      MappingNames();
      newRoles := map[];
      k := 0;
      while k < |RoleMapping|
        invariant k <= |RoleMapping|
        invariant users == old(users) && resources == SeedResources(old(resources), DefaultResources)
        invariant |roles| >= |old(roles)| && roles[..|old(roles)|] == old(roles)
        invariant MappedUpTo(RoleMapping, old(roles), roles, newRoles, createFails, k)
        invariant forall j :: k <= j < |RoleMapping| ==>
                    RoleIdByName(roles, RoleMapping[j].1.name) == RoleIdByName(old(roles), RoleMapping[j].1.name)
      {
        var rolesBefore, mapBefore := roles, newRoles;
        var seed := RoleMapping[k].1;
        var id := CreateRole(seed, idFor(seed.name), createFails(seed.name));
        if id.Some? {
          newRoles := newRoles[RoleMapping[k].0 := id.value];
        }
        SeedRoleStep(RoleMapping, old(roles), rolesBefore, roles, mapBefore, newRoles, createFails, k, id, idFor(seed.name));
        k := k + 1;
      }
    }

    /** One turn of the user loop: `processed` is counted, then `updateOne`
        either gives user i its new role or throws and is recorded. */
    method MigrateUser(newRoles: map<string, string>, defaultId: string, updateError: string -> Option<Thrown>,
                       i: nat, before: Progress) returns (next: Progress)
      requires i < |users|
      modifies this
      ensures next == ProcessUser(newRoles, defaultId, before, old(users)[i], updateError)
      ensures users == old(users)[i := Migrated(newRoles, defaultId, old(users)[i], updateError)]
      ensures roles == old(roles) && resources == old(resources)
    {
      var user := users[i];
      next := before.(processed := before.processed + 1);
      var failure := updateError(user.id);
      if failure.Some? {
        var oldRole := if user.role == "" then "undefined" else user.role;
        next := next.(errors := next.errors + [MigrationError(user.id, oldRole, ErrorText(failure.value))],
                      users := next.users + [user]);
      } else {
        var updated := user.(role := NewRoleFor(newRoles, defaultId, user.role));
        users := users[i := updated];
        next := next.(updated := next.updated + 1, users := next.users + [updated]);
      }
    }

    /** The user loop of `up`: each user in turn is counted, then either
        given its new role or recorded as an error. */
    method MigrateUsers(newRoles: map<string, string>, defaultId: string, updateError: string -> Option<Thrown>)
      returns (progress: Progress)
      modifies this
      ensures progress == ProcessUsers(newRoles, defaultId, old(users), updateError)
      ensures users == progress.users
      ensures roles == old(roles) && resources == old(resources)
    {
      var users0 := users;
      progress := Progress([], [], 0, 0);
      var i := 0;
      while i < |users0|
        invariant 0 <= i <= |users0|
        invariant progress == ProcessUsers(newRoles, defaultId, users0[..i], updateError)
        invariant |users| == |users0|
        invariant forall j :: 0 <= j < i ==> users[j] == Migrated(newRoles, defaultId, users0[j], updateError)
        invariant forall j :: i <= j < |users0| ==> users[j] == users0[j]
        invariant roles == old(roles) && resources == old(resources)
      {
        ProcessUsersSnoc(newRoles, defaultId, users0, i, updateError);
        progress := MigrateUser(newRoles, defaultId, updateError, i, progress);
        i := i + 1;
      }
      assert users0[..i] == users0;
      MigratedAll(newRoles, defaultId, users0, updateError, users);
    }

    /** `up`. `idFor` names the id a created role gets, `createFails` the
        roles whose creation throws, and `updateError` the users whose
        update throws. A missing default role throws, and the transaction
        leaves the store as it was. Otherwise the default resources are
        seeded, the mapping's roles are found or created, and every user
        is migrated with the default role the mapping found for `user`. */
    method Up(idFor: string -> string, createFails: string -> bool, updateError: string -> Option<Thrown>)
      returns (r: Result<Context, Thrown>)
      modifies this
      ensures r.Err? <==> RoleIdByName(old(roles), DefaultRole).None? && createFails(DefaultRole)
      ensures r.Err? ==> r.error == PlainError("Failed to create default role") &&
                         users == old(users) && roles == old(roles) && resources == old(resources)
      ensures r.Ok? ==> resources == SeedResources(old(resources), DefaultResources)
      ensures r.Ok? ==> |roles| >= |old(roles)| && roles[..|old(roles)|] == old(roles)
      ensures r.Ok? ==> Mapped(old(roles), roles, r.value.newRoles, createFails)
      ensures r.Ok? ==> r.value.skipped == 0 && r.value.processed == |old(users)| &&
                        r.value.processed == r.value.updated + |r.value.errors|
      ensures r.Ok? ==> DefaultRole in r.value.newRoles &&
                        var p := ProcessUsers(r.value.newRoles, r.value.newRoles[DefaultRole], old(users), updateError);
                        users == p.users && r.value.errors == p.errors
    {
      var users0, roles0, resources0 := users, roles, resources;
      var newRoles := SeedRoles(idFor, createFails);
      var rolesBefore := roles;
      MappingNames();
      MappedEntry(roles0, rolesBefore, newRoles, createFails, 1);
      var seed := RoleMapping[1].1;
      var defaultId := CreateRole(seed, idFor(DefaultRole), createFails(DefaultRole));
      if defaultId.None? {
        users, roles, resources := users0, roles0, resources0;
        return Err(PlainError("Failed to create default role"));
      }
      assert DefaultRole in newRoles && roles == rolesBefore && defaultId.value == newRoles[DefaultRole];
      var progress := MigrateUsers(newRoles, defaultId.value, updateError);
      ProcessUsersCounts(newRoles, defaultId.value, users0, updateError);
      r := Ok(Context(newRoles, progress.errors, progress.processed, 0, progress.updated));
    }

    /** `down`: the mapped roles and the default resources are deleted and
        every user's role is unset. */
    method Down()
      modifies this
      ensures roles == RemainingRoles(old(roles))
      ensures resources == RemainingResources(old(resources))
      ensures |users| == |old(users)| && forall i :: 0 <= i < |users| ==> users[i] == old(users)[i].(role := "")
    {
      roles := RemainingRoles(roles);
      users := seq(|users|, i requires 0 <= i < |users| reads this => users[i].(role := ""));
      resources := RemainingResources(resources);
    }
  }

  /** After `down`, no seeded role or resource is left and no user has a
      role, whatever `up` did before. */
  lemma DownRemovesSeeds(roles: seq<StoredRole>, resources: seq<StoredResource>)
    ensures forall x :: x in RemainingRoles(roles) ==> x.name !in MappedNames()
    ensures forall x :: x in RemainingResources(resources) ==> x.name !in DefaultResourceNames()
    ensures forall x :: x in roles && x.name !in MappedNames() ==> x in RemainingRoles(roles)
  {
  }
}
