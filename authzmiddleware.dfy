/** The decisions of the authz middlewares. The active endpoint config found
    for the request's path and method is a parameter, and so is the
    service's permission check, whose answer may be an error. A middleware
    either calls `next()` or passes an error to `next`. */
module AuthzMiddleware {
  import opened Wrappers
  import AuthzService

  /** The resource and action of the active endpoint config. */
  datatype Endpoint = Endpoint(resource: string, action: string)

  /** A `{ resource?, action? }` pair; a missing field is "". */
  datatype Pair = Pair(resource: string, action: string)

  datatype Outcome = Pass | Reject(error: Thrown)

  type Checker = (string, string) -> Result<bool, Thrown>

  /** `if (resource && action)`. */
  predicate Complete(p: Pair) {
    p.resource != "" && p.action != ""
  }

  /** The check never throws. */
  ghost predicate NeverFails(check: Checker) {
    forall r: string, a: string :: check(r, a).Ok?
  }

  /** One check: its error, a 403 with `message` when denied, or a pass. */
  function Decide(check: Checker, resource: string, action: string, message: string): (o: Outcome)
    ensures o.Pass? <==> check(resource, action) == Ok(true)
    ensures check(resource, action) == Ok(false) ==> o == Reject(HttpError(403, message))
    ensures check(resource, action).Err? ==> o == Reject(check(resource, action).error)
  {
    match check(resource, action)
    case Err(e) => Reject(e)
    case Ok(granted) => if granted then Pass else Reject(HttpError(403, message))
  }

  function DeniedFor(action: string, resource: string): string {
    "Permission denied for " + action + " on " + resource
  }

  // ---------------------------------------------------------------------
  // checkPermission(resource, action)

  /** The permission `checkPermission` resolves: the endpoint's, else the
      factory's when both fields are set, else none. */
  function ResolvePermission(endpoint: Option<Endpoint>, resource: string, action: string): (r: Option<Pair>)
    ensures endpoint.Some? ==> r == Some(Pair(endpoint.value.resource, endpoint.value.action))
    ensures endpoint.None? ==> (r.Some? <==> resource != "" && action != "")
    ensures endpoint.None? && r.Some? ==> r.value == Pair(resource, action)
  {
    if endpoint.Some? then Some(Pair(endpoint.value.resource, endpoint.value.action))
    else if resource != "" && action != "" then Some(Pair(resource, action))
    else None
  }

  function CheckPermission(endpoint: Option<Endpoint>, resource: string, action: string, check: Checker): Outcome {
    match ResolvePermission(endpoint, resource, action)
    case None => Pass
    case Some(p) => Decide(check, p.resource, p.action, DeniedFor(p.action, p.resource))
  }

  /** An active endpoint config wins over the factory's arguments; without
      one, missing arguments let the request through unchecked; otherwise
      the request passes exactly when the check grants it. */
  lemma CheckPermissionDecides(endpoint: Option<Endpoint>, resource: string, action: string, check: Checker)
    ensures endpoint.Some? ==>
              CheckPermission(endpoint, resource, action, check) ==
              CheckPermission(endpoint, "", "", check)
    ensures endpoint.None? && (resource == "" || action == "") ==> CheckPermission(endpoint, resource, action, check) == Pass
    ensures var p := ResolvePermission(endpoint, resource, action);
            p.Some? ==> (CheckPermission(endpoint, resource, action, check).Pass? <==> check(p.value.resource, p.value.action) == Ok(true))
    ensures var p := ResolvePermission(endpoint, resource, action);
            p.Some? && check(p.value.resource, p.value.action) == Ok(false) ==>
              CheckPermission(endpoint, resource, action, check) == Reject(HttpError(403, DeniedFor(p.value.action, p.value.resource)))
  {
  }

  // ---------------------------------------------------------------------
  // checkAnyPermission(permissions)

  const AnyDenied: string := "Permission denied - requires any of specified permissions"

  /** The loop over the listed pairs: the outcome of the first complete pair
      that is granted or whose check throws, if any. */
  function AnyLoop(perms: seq<Pair>, check: Checker): Option<Outcome>
    decreases |perms|
  {
    if perms == [] then None
    else if Complete(perms[0]) && check(perms[0].resource, perms[0].action) != Ok(false) then
      match check(perms[0].resource, perms[0].action)
      case Err(e) => Some(Reject(e))
      case Ok(_) => Some(Pass)
    else AnyLoop(perms[1..], check)
  }

  function CheckAnyPermission(endpoint: Option<Endpoint>, perms: seq<Pair>, check: Checker): Outcome {
    var first := if endpoint.Some? then
                   match check(endpoint.value.resource, endpoint.value.action)
                   case Err(e) => Some(Reject(e))
                   case Ok(granted) => if granted then Some(Pass) else None
                 else None;
    if first.Some? then first.value
    else match AnyLoop(perms, check)
      case Some(o) => o
      case None => if |perms| == 0 && endpoint.None? then Pass else Reject(HttpError(403, AnyDenied))
  }

  lemma {:induction false} AnyLoopIff(perms: seq<Pair>, check: Checker)
    requires NeverFails(check)
    ensures AnyLoop(perms, check).Some? ==> AnyLoop(perms, check) == Some(Pass)
    ensures AnyLoop(perms, check) == Some(Pass) <==>
            exists i :: 0 <= i < |perms| && Complete(perms[i]) && check(perms[i].resource, perms[i].action) == Ok(true)
    decreases |perms|
  {
    if perms != [] {
      AnyLoopIff(perms[1..], check);
      assert check(perms[0].resource, perms[0].action).Ok?;
      if Complete(perms[0]) && check(perms[0].resource, perms[0].action) == Ok(true) {
        assert AnyLoop(perms, check) == Some(Pass);
      } else {
        if Complete(perms[0]) {
          var c := check(perms[0].resource, perms[0].action);
          assert c.Ok? && !c.value;
          assert c == Ok(false);
        }
        assert AnyLoop(perms, check) == AnyLoop(perms[1..], check);
        if exists i :: 0 <= i < |perms| && Complete(perms[i]) && check(perms[i].resource, perms[i].action) == Ok(true) {
          var i :| 0 <= i < |perms| && Complete(perms[i]) && check(perms[i].resource, perms[i].action) == Ok(true);
          assert i >= 1;
          assert perms[1..][i - 1] == perms[i];
        }
        if AnyLoop(perms[1..], check) == Some(Pass) {
          var i :| 0 <= i < |perms[1..]| && Complete(perms[1..][i]) && check(perms[1..][i].resource, perms[1..][i].action) == Ok(true);
          assert perms[1..][i] == perms[i + 1];
        }
      }
    }
  }

  /** With a check that never throws, `checkAnyPermission` passes exactly
      when the endpoint's permission is granted, or some complete listed
      pair is granted, or nothing is listed and there is no endpoint; in
      every other case it answers 403, even for an empty list when the
      endpoint is denied. */
  lemma CheckAnyIff(endpoint: Option<Endpoint>, perms: seq<Pair>, check: Checker)
    requires NeverFails(check)
    ensures CheckAnyPermission(endpoint, perms, check).Pass? <==>
            (endpoint.Some? && check(endpoint.value.resource, endpoint.value.action) == Ok(true)) ||
            (exists i :: 0 <= i < |perms| && Complete(perms[i]) && check(perms[i].resource, perms[i].action) == Ok(true)) ||
            (|perms| == 0 && endpoint.None?)
    ensures CheckAnyPermission(endpoint, perms, check).Pass? || CheckAnyPermission(endpoint, perms, check) == Reject(HttpError(403, AnyDenied))
  {
    AnyLoopIff(perms, check);
    if endpoint.Some? {
      assert check(endpoint.value.resource, endpoint.value.action).Ok?;
    }
  }

  // ---------------------------------------------------------------------
  // checkAllPermissions(permissions)

  /** The loop over the listed pairs: the first complete pair that is denied
      or whose check throws. */
  function AllLoop(perms: seq<Pair>, check: Checker): Outcome
    decreases |perms|
  {
    if perms == [] then Pass
    else if Complete(perms[0]) && check(perms[0].resource, perms[0].action) != Ok(true) then
      Decide(check, perms[0].resource, perms[0].action, DeniedFor(perms[0].action, perms[0].resource))
    else AllLoop(perms[1..], check)
  }

  /** The endpoint's check first, then the list in order; both closing
      branches call `next()`. */
  function CheckAllPermissions(endpoint: Option<Endpoint>, perms: seq<Pair>, check: Checker): Outcome {
    if endpoint.Some? && check(endpoint.value.resource, endpoint.value.action) != Ok(true) then
      Decide(check, endpoint.value.resource, endpoint.value.action,
             DeniedFor(endpoint.value.action, endpoint.value.resource))
    else AllLoop(perms, check)
  }

  lemma {:induction false} AllLoopFirstDenied(perms: seq<Pair>, check: Checker)
    requires NeverFails(check)
    ensures AllLoop(perms, check).Pass? <==>
            forall i :: 0 <= i < |perms| && Complete(perms[i]) ==> check(perms[i].resource, perms[i].action) == Ok(true)
    ensures AllLoop(perms, check).Reject? ==>
              exists i :: 0 <= i < |perms| && Complete(perms[i]) && check(perms[i].resource, perms[i].action) == Ok(false) &&
                          (forall j :: 0 <= j < i && Complete(perms[j]) ==> check(perms[j].resource, perms[j].action) == Ok(true)) &&
                          AllLoop(perms, check) == Reject(HttpError(403, DeniedFor(perms[i].action, perms[i].resource)))
    decreases |perms|
  {
    if perms != [] {
      AllLoopFirstDenied(perms[1..], check);
      assert check(perms[0].resource, perms[0].action).Ok?;
      assert forall i :: 1 <= i < |perms| ==> perms[1..][i - 1] == perms[i];
      if !(Complete(perms[0]) && check(perms[0].resource, perms[0].action) != Ok(true)) && AllLoop(perms, check).Reject? {
        var k :| 0 <= k < |perms[1..]| && Complete(perms[1..][k]) && check(perms[1..][k].resource, perms[1..][k].action) == Ok(false) &&
                 (forall j :: 0 <= j < k && Complete(perms[1..][j]) ==> check(perms[1..][j].resource, perms[1..][j].action) == Ok(true)) &&
                 AllLoop(perms[1..], check) == Reject(HttpError(403, DeniedFor(perms[1..][k].action, perms[1..][k].resource)));
        assert perms[k + 1] == perms[1..][k];
      }
    }
  }

  /** With a check that never throws, `checkAllPermissions` passes exactly
      when the endpoint (if any) and every complete pair are granted; a
      refusal is the 403 of the endpoint or of the first denied pair. */
  lemma CheckAllIff(endpoint: Option<Endpoint>, perms: seq<Pair>, check: Checker)
    requires NeverFails(check)
    ensures CheckAllPermissions(endpoint, perms, check).Pass? <==>
            (endpoint.Some? ==> check(endpoint.value.resource, endpoint.value.action) == Ok(true)) &&
            (forall i :: 0 <= i < |perms| && Complete(perms[i]) ==> check(perms[i].resource, perms[i].action) == Ok(true))
    ensures endpoint.Some? && check(endpoint.value.resource, endpoint.value.action) == Ok(false) ==>
              CheckAllPermissions(endpoint, perms, check) ==
              Reject(HttpError(403, DeniedFor(endpoint.value.action, endpoint.value.resource)))
  {
    AllLoopFirstDenied(perms, check);
    if endpoint.Some? {
      assert check(endpoint.value.resource, endpoint.value.action).Ok?;
    }
  }

  /** Whatever `checkAllPermissions` lets through with a non-empty list of
      complete pairs, `checkAnyPermission` lets through too. */
  lemma AllImpliesAny(endpoint: Option<Endpoint>, perms: seq<Pair>, check: Checker)
    requires NeverFails(check)
    requires exists i :: 0 <= i < |perms| && Complete(perms[i])
    requires CheckAllPermissions(endpoint, perms, check).Pass?
    ensures CheckAnyPermission(endpoint, perms, check).Pass?
  {
    CheckAllIff(endpoint, perms, check);
    CheckAnyIff(endpoint, perms, check);
    var i :| 0 <= i < |perms| && Complete(perms[i]);
    assert check(perms[i].resource, perms[i].action) == Ok(true);
  }

  // ---------------------------------------------------------------------
  // dynamicPermissionCheck

  function DynamicPermissionCheck(endpoint: Option<Endpoint>, check: Checker): (o: Outcome)
    ensures endpoint.None? ==> o == Pass
    ensures endpoint.Some? ==>
              (o.Pass? <==> check(endpoint.value.resource, endpoint.value.action) == Ok(true)) &&
              (check(endpoint.value.resource, endpoint.value.action) == Ok(false) ==>
                 o == Reject(HttpError(403, "Permission denied - requires " + endpoint.value.action +
                                            " permission on " + endpoint.value.resource)))
  {
    match endpoint
    case None => Pass
    case Some(e) => Decide(check, e.resource, e.action, "Permission denied - requires " + e.action + " permission on " + e.resource)
  }

  /** Against the service's check, a superadmin passes every endpoint whose
      config names a resource and an action, and an endpoint config with an
      empty field answers 400 even for the superadmin. */
  lemma SuperadminAndDynamic(roles: seq<AuthzService.Role>, admin: AuthzService.Role, e: Endpoint)
    requires admin.name == AuthzService.SuperadminRole
    ensures var check := (r, a) => AuthzService.CheckPermission(roles, Some(AuthzService.Populated(admin)), r, a);
            (e.resource != "" && e.action != "" ==> DynamicPermissionCheck(Some(e), check) == Pass) &&
            (e.resource == "" || e.action == "" ==>
               DynamicPermissionCheck(Some(e), check) == Reject(HttpError(400, "Missing required parameters")))
  {
  }

  // ---------------------------------------------------------------------
  // checkEndpointPermission

  /** An active endpoint config of the request's method, with the path
      pattern it was registered under. */
  datatype Route = Route(pattern: string, endpoint: Endpoint)

  /** `endpoints.find(...)`: the config of the first route whose pattern
      matches the path. Whether a pattern (with its `:param` segments and
      `*`) matches a path is the parameter `matches`. */
  function FirstMatching(routes: seq<Route>, path: string, matches: (string, string) -> bool): (r: Option<Endpoint>)
    ensures r.None? <==> forall i :: 0 <= i < |routes| ==> !matches(routes[i].pattern, path)
    ensures r.Some? ==> exists i :: 0 <= i < |routes| && matches(routes[i].pattern, path) && r.value == routes[i].endpoint
  {
    if routes == [] then None
    else if matches(routes[0].pattern, path) then Some(routes[0].endpoint)
    else
      var r := FirstMatching(routes[1..], path, matches);
      assert forall i :: 1 <= i < |routes| ==> routes[1..][i - 1] == routes[i];
      r
  }

  /** `checkEndpointPermission`: no matching route passes; otherwise the
      first matching route's config is checked as `dynamicPermissionCheck`
      checks the exact one. */
  function CheckEndpointPermission(routes: seq<Route>, path: string, matches: (string, string) -> bool,
                                   check: Checker): (o: Outcome)
    ensures (forall i :: 0 <= i < |routes| ==> !matches(routes[i].pattern, path)) ==> o == Pass
    ensures o.Pass? ==> (forall i :: 0 <= i < |routes| ==> !matches(routes[i].pattern, path)) ||
                        exists i :: 0 <= i < |routes| && matches(routes[i].pattern, path) &&
                                    check(routes[i].endpoint.resource, routes[i].endpoint.action) == Ok(true)
  {
    DynamicPermissionCheck(FirstMatching(routes, path, matches), check)
  }

  /** The first route that matches decides, whatever the later ones say. */
  lemma {:induction false} FirstMatchDecides(routes: seq<Route>, path: string, matches: (string, string) -> bool,
                                             check: Checker, k: nat)
    requires k < |routes| && matches(routes[k].pattern, path)
    requires forall j :: 0 <= j < k ==> !matches(routes[j].pattern, path)
    ensures CheckEndpointPermission(routes, path, matches, check) ==
            DynamicPermissionCheck(Some(routes[k].endpoint), check)
  {
    if k > 0 {
      assert forall j :: 0 <= j < k - 1 ==> routes[1..][j] == routes[j + 1];
      FirstMatchDecides(routes[1..], path, matches, check, k - 1);
    }
  }
}
