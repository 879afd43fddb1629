/** The `hasPermission` method of the role schema: a role's permissions are
    a map from a resource name to the actions allowed on it, where '*'
    allows every action and an action ending in ':*' allows every action
    that starts with what comes before the '*'. */
module AuthzRoles {
  import opened Strings

  type Permissions = map<string, seq<string>>

  /** `actions.filter(a => a.endsWith(':*'))`. */
  function Wildcards(actions: seq<string>): (ws: seq<string>)
    ensures forall w :: w in ws <==> w in actions && EndsWith(w, ":*")
  {
    if actions == [] then []
    else
      assert forall w :: w in actions <==> w == actions[0] || w in actions[1..];
      (if EndsWith(actions[0], ":*") then [actions[0]] else []) + Wildcards(actions[1..])
  }

  /** `s.slice(0, -1)`: everything but the last character. */
  function DropLast(s: string): string {
    if s == [] then [] else s[..|s| - 1]
  }

  /** The loop over the wildcards: some wildcard, with its '*' removed, is a
      prefix of the action. */
  predicate AnyPrefixMatches(ws: seq<string>, action: string)
    decreases |ws|
  {
    if ws == [] then false
    else
      if StartsWith(action, DropLast(ws[0])) then true
      else AnyPrefixMatches(ws[1..], action)
  }

  /** `hasPermission(resource, action)`. */
  predicate HasPermission(perms: Permissions, resource: string, action: string) {
    if resource !in perms then false
    else
      var actions := perms[resource];
      if action in actions || "*" in actions then true
      else AnyPrefixMatches(Wildcards(actions), action)
  }

  /** One listed action covers the requested one. */
  predicate Covers(listed: string, action: string) {
    listed == action || listed == "*" || (EndsWith(listed, ":*") && StartsWith(action, DropLast(listed)))
  }

  lemma {:induction false} AnyPrefixMatchesIff(ws: seq<string>, action: string)
    requires forall w :: w in ws ==> EndsWith(w, ":*")
    ensures AnyPrefixMatches(ws, action) <==> exists w :: w in ws && StartsWith(action, DropLast(w))
    decreases |ws|
  {
    if ws != [] {
      AnyPrefixMatchesIff(ws[1..], action);
      assert forall w :: w in ws <==> w == ws[0] || w in ws[1..];
    }
  }

  /** The role is granted the action exactly when it has an entry for the
      resource and some listed action covers the requested one. */
  lemma HasPermissionIff(perms: Permissions, resource: string, action: string)
    ensures HasPermission(perms, resource, action) <==>
            resource in perms && exists a :: a in perms[resource] && Covers(a, action)
  {
    if resource in perms {
      var actions := perms[resource];
      AnyPrefixMatchesIff(Wildcards(actions), action);
      if action in actions {
        assert Covers(action, action);
      } else if "*" in actions {
        assert Covers("*", action);
      }
    }
  }

  /** No entry for the resource: nothing is granted. */
  lemma NoEntryDenies(perms: Permissions, resource: string, action: string)
    requires resource !in perms
    ensures !HasPermission(perms, resource, action)
  {
  }

  /** 'p:*' grants every action that starts with 'p:', such as 'posts:create'
      under 'posts:*', but not 'p' itself. */
  lemma PrefixWildcard(resource: string, p: string, action: string)
    requires StartsWith(action, p + ":")
    ensures HasPermission(map[resource := [p + ":*"]], resource, action)
    ensures !HasPermission(map[resource := [p + ":*"]], resource, p)
  {
    var perms := map[resource := [p + ":*"]];
    var w := p + ":*";
    assert EndsWith(w, ":*");
    assert DropLast(w) == p + ":";
    HasPermissionIff(perms, resource, action);
    assert Covers(w, action);
    HasPermissionIff(perms, resource, p);
    assert !StartsWith(p, p + ":");
    assert !Covers(w, p);
  }

  /** Allowing one more action on a resource never revokes a grant. */
  lemma AddActionMonotone(perms: Permissions, r: string, extra: string, resource: string, action: string)
    requires r in perms
    requires HasPermission(perms, resource, action)
    ensures HasPermission(perms[r := perms[r] + [extra]], resource, action)
  {
    var grown := perms[r := perms[r] + [extra]];
    HasPermissionIff(perms, resource, action);
    HasPermissionIff(grown, resource, action);
    var a :| a in perms[resource] && Covers(a, action);
    assert a in grown[resource];
  }
}
