/** `defineAbilityFor`: the browser-side ability built from the signed-in
    user's role, as the list of (action, subject) rules the builder
    accumulates. The special values are the ones the back end uses. */
module Ability {
  import opened Wrappers
  import AuthzService

  /** One `can(action, subject)` call. */
  datatype Rule = Rule(action: string, subject: string)

  /** The user's role as the browser holds it; both fields are optional. */
  datatype UserRole = UserRole(permissions: Option<seq<AuthzService.Permission>>, role: Option<string>)

  /** The rule one permission contributes. */
  function RuleFor(p: AuthzService.Permission): (r: Rule)
    ensures AuthzService.IsSpecialResource(p.resource) && AuthzService.IsSpecialAction(p.action) ==>
              r == Rule("manage", "all")
    ensures AuthzService.IsSpecialResource(p.resource) && !AuthzService.IsSpecialAction(p.action) ==>
              r == Rule(p.action, "all")
    ensures !AuthzService.IsSpecialResource(p.resource) && AuthzService.IsSpecialAction(p.action) ==>
              r == Rule("manage", p.resource)
    ensures !AuthzService.IsSpecialResource(p.resource) && !AuthzService.IsSpecialAction(p.action) ==>
              r == Rule(p.action, p.resource)
  {
    if p.resource == "all" || p.resource == "*" then
      if p.action == "*" || p.action == "manage" then Rule("manage", "all")
      else Rule(p.action, "all")
    else if p.action == "*" || p.action == "manage" then Rule("manage", p.resource)
    else Rule(p.action, p.resource)
  }

  /** The rules of a list of permissions, one each, in order. */
  function RulesOfPermissions(ps: seq<AuthzService.Permission>): (rules: seq<Rule>)
    ensures |rules| == |ps|
  {
    if ps == [] then [] else RulesOfPermissions(ps[..|ps| - 1]) + [RuleFor(ps[|ps| - 1])]
  }

  /** The rules the ability is built from. */
  function RulesOf(user: UserRole): seq<Rule> {
    if user.role == Some(AuthzService.SuperadminRole) then [Rule("manage", "all")]
    else if user.permissions.None? then []
    else RulesOfPermissions(user.permissions.value)
  }

  /** The rule list under construction. */
  class AbilityBuilder {
    var rules: seq<Rule>

    constructor ()
      ensures rules == []
    {
      rules := [];
    }

    /** `can(action, subject)`. */
    method Can(action: string, subject: string)
      modifies this
      ensures rules == old(rules) + [Rule(action, subject)]
    {
      rules := rules + [Rule(action, subject)];
    }
  }

  /** `defineAbilityFor(user)`: the rules `build()` receives. */
  method DefineAbilityFor(user: UserRole) returns (rules: seq<Rule>)
    ensures rules == RulesOf(user)
  {
    var builder := new AbilityBuilder();
    if user.role == Some(AuthzService.SuperadminRole) {
      builder.Can("manage", "all");
      return builder.rules;
    }
    if user.permissions.Some? {
      var ps := user.permissions.value;
      for i := 0 to |ps|
        invariant builder.rules == RulesOfPermissions(ps[..i])
      {
        var p := ps[i];
        if p.resource == "all" || p.resource == "*" {
          if p.action == "*" || p.action == "manage" {
            builder.Can("manage", "all");
          } else {
            builder.Can(p.action, "all");
          }
        } else if p.action == "*" || p.action == "manage" {
          builder.Can("manage", p.resource);
        } else {
          builder.Can(p.action, p.resource);
        }
        assert ps[..i + 1][..i] == ps[..i];
      }
      assert ps[..|ps|] == ps;
    }
    rules := builder.rules;
  }

  /** Permission i contributes rule i. */
  lemma {:induction false} RulePerPermission(ps: seq<AuthzService.Permission>, i: int)
    requires 0 <= i < |ps|
    ensures RulesOfPermissions(ps)[i] == RuleFor(ps[i])
    decreases |ps|
  {
    if i < |ps| - 1 {
      RulePerPermission(ps[..|ps| - 1], i);
    }
  }

  /** A superadmin gets exactly one rule, whatever permissions it holds. */
  lemma SuperadminManagesAll(ps: Option<seq<AuthzService.Permission>>)
    ensures RulesOf(UserRole(ps, Some(AuthzService.SuperadminRole))) == [Rule("manage", "all")]
  {
  }

  /** Without permissions there are no rules; the initial ability is empty. */
  lemma NoPermissionsNoRules(role: Option<string>)
    requires role != Some(AuthzService.SuperadminRole)
    ensures RulesOf(UserRole(None, role)) == []
    ensures RulesOf(UserRole(Some([]), role)) == []
  {
  }

  /** How the built ability answers `can(action, subject)`: a rule matches
      when its action is the asked one or 'manage', and its subject is the
      asked one or 'all'. */
  predicate Allows(rules: seq<Rule>, action: string, subject: string) {
    exists i :: 0 <= i < |rules| &&
      (rules[i].action == action || rules[i].action == "manage") &&
      (rules[i].subject == subject || rules[i].subject == "all")
  }

  /** For an ordinary action on an ordinary resource, the browser allows
      exactly what the back end's permission check grants: some permission
      of the role grants that action on that resource. */
  lemma AgreesWithBackend(ps: seq<AuthzService.Permission>, role: Option<string>,
                          action: string, resource: string)
    requires role != Some(AuthzService.SuperadminRole)
    requires !AuthzService.IsSpecialAction(action) && !AuthzService.IsSpecialResource(resource)
    ensures Allows(RulesOf(UserRole(Some(ps), role)), action, resource) <==>
            exists p :: p in ps && AuthzService.Grants(p, resource, action)
  {
    var rules := RulesOf(UserRole(Some(ps), role));
    if Allows(rules, action, resource) {
      var i :| 0 <= i < |rules| &&
        (rules[i].action == action || rules[i].action == "manage") &&
        (rules[i].subject == resource || rules[i].subject == "all");
      RulePerPermission(ps, i);
      RuleGrants(ps[i], action, resource);
      assert ps[i] in ps;
    }
    if p :| p in ps && AuthzService.Grants(p, resource, action) {
      var i :| 0 <= i < |ps| && ps[i] == p;
      RulePerPermission(ps, i);
      RuleGrants(p, action, resource);
      assert rules[i] == RuleFor(p);
    }
  }

  /** One permission's rule matches exactly when the permission grants. */
  lemma RuleGrants(p: AuthzService.Permission, action: string, resource: string)
    requires !AuthzService.IsSpecialAction(action) && !AuthzService.IsSpecialResource(resource)
    ensures ((RuleFor(p).action == action || RuleFor(p).action == "manage") &&
             (RuleFor(p).subject == resource || RuleFor(p).subject == "all")) <==>
            AuthzService.Grants(p, resource, action)
  {
  }
}
