/** `UserRoleManager`: the registry of role names users may hold. It
    starts from the basic roles and can be extended. */
module UserRoles {

  /** `roles.reduce((prev, curr) => { prev[curr] = curr; ... }, {})`: every
      role name mapped to itself, a later duplicate overwriting an earlier
      one. */
  function RoleMap(roles: seq<string>): map<string, string>
    decreases |roles|
  {
    if roles == [] then map[]
    else RoleMap(roles[..|roles| - 1])[roles[|roles| - 1] := roles[|roles| - 1]]
  }

  /** The keys are exactly the registered names, duplicates collapsing, and
      each maps to itself. */
  lemma {:induction false} RoleMapKeys(roles: seq<string>)
    ensures RoleMap(roles).Keys == set r | r in roles
    ensures forall k :: k in RoleMap(roles) ==> RoleMap(roles)[k] == k
    decreases |roles|
  {
    if roles != [] {
      var init := roles[..|roles| - 1];
      RoleMapKeys(init);
      assert forall r :: r in roles <==> r in init || r == roles[|roles| - 1];
    }
  }

  class UserRoleManager {
    var userRoles: seq<string>

    /** The registry starts from the basic roles, given here. */
    constructor(basicRoles: seq<string>)
      ensures userRoles == basicRoles
    {
      userRoles := basicRoles;
    }

    /** `appendRoles(optionalRoles)`: the new names go at the end; nothing
        is removed. */
    method AppendRoles(optionalRoles: seq<string>)
      modifies this
      ensures userRoles == old(userRoles) + optionalRoles
    {
      userRoles := userRoles + optionalRoles;
    }

    /** The `getUserRoles` getter. It reads the registry and changes nothing. */
    method GetUserRoles() returns (m: map<string, string>)
      ensures m == RoleMap(userRoles)
      ensures m.Keys == set r | r in userRoles
      ensures forall k :: k in m ==> m[k] == k
    {
      m := map[];
      for i := 0 to |userRoles|
        invariant m == RoleMap(userRoles[..i])
      {
        assert userRoles[..i + 1][..i] == userRoles[..i];
        m := m[userRoles[i] := userRoles[i]];
      }
      assert userRoles[..|userRoles|] == userRoles;
      RoleMapKeys(userRoles);
    }
  }

  /** Appending roles keeps every name the registry already mapped. */
  lemma {:induction false} AppendKeepsRoles(roles: seq<string>, more: seq<string>)
    ensures RoleMap(roles).Keys <= RoleMap(roles + more).Keys
  {
    RoleMapKeys(roles);
    RoleMapKeys(roles + more);
  }
}
