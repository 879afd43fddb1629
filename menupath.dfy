/** `getParentPath`: the top-level menu entry a location belongs to, so the
    side menu can open it. A route covers a location equal to its path or
    lying below it ('/'-separated); a top-level route is chosen when it or
    one of its direct children covers the location, the first such route in
    menu order wins, and '' means that none does. */
module MenuPath {
  import opened Strings
  import opened RoleMenu

  /** `route.path === pathname || pathname.startsWith(`${route.path}/`)`. */
  predicate Covers(path: string, pathname: string) {
    path == pathname || StartsWith(pathname, path + "/")
  }

  /** Some direct child of the route covers the location. */
  predicate ChildCovers(route: MenuItem, pathname: string) {
    route.children.Listed? &&
    exists k :: 0 <= k < |route.children.items| && Covers(route.children.items[k].path, pathname)
  }

  /** The route is the answer if no earlier one is. */
  predicate Selects(route: MenuItem, pathname: string) {
    Covers(route.path, pathname) || ChildCovers(route, pathname)
  }

  /** The inner loop over a route's children. */
  function AnyChildCovers(children: seq<MenuItem>, pathname: string): (b: bool)
    ensures b <==> exists k :: 0 <= k < |children| && Covers(children[k].path, pathname)
    decreases |children|
  {
    if children == [] then false
    else if Covers(children[0].path, pathname) then true
    else
      var b := AnyChildCovers(children[1..], pathname);
      assert forall k :: 1 <= k < |children| ==> children[k] == children[1..][k - 1];
      b
  }

  /** The outer loop, returning from the first route selected. */
  function GetParentPath(routes: seq<MenuItem>, pathname: string): (r: string)
    decreases |routes|
  {
    if routes == [] then ""
    else if Covers(routes[0].path, pathname) then routes[0].path
    else if routes[0].children.Listed? && AnyChildCovers(routes[0].children.items, pathname) then routes[0].path
    else GetParentPath(routes[1..], pathname)
  }

  /** The first selected route gives the answer. */
  lemma {:induction false} FirstSelectedWins(routes: seq<MenuItem>, pathname: string, i: int)
    requires 0 <= i < |routes| && Selects(routes[i], pathname)
    requires forall j :: 0 <= j < i ==> !Selects(routes[j], pathname)
    ensures GetParentPath(routes, pathname) == routes[i].path
    decreases |routes|
  {
    if i > 0 {
      assert !Selects(routes[0], pathname);
      FirstSelectedWins(routes[1..], pathname, i - 1);
    }
  }

  /** With no route selected the answer is ''. */
  lemma {:induction false} NothingSelected(routes: seq<MenuItem>, pathname: string)
    requires forall j :: 0 <= j < |routes| ==> !Selects(routes[j], pathname)
    ensures GetParentPath(routes, pathname) == ""
    decreases |routes|
  {
    if routes != [] {
      assert !Selects(routes[0], pathname);
      NothingSelected(routes[1..], pathname);
    }
  }

  /** Conversely, a non-empty answer is the path of a selected top-level
      route; a child's own path is never returned. */
  lemma {:induction false} AnswerIsSelected(routes: seq<MenuItem>, pathname: string)
    requires GetParentPath(routes, pathname) != ""
    ensures exists i :: 0 <= i < |routes| && Selects(routes[i], pathname) &&
                        GetParentPath(routes, pathname) == routes[i].path
    decreases |routes|
  {
    if !Selects(routes[0], pathname) {
      AnswerIsSelected(routes[1..], pathname);
      var i :| 0 <= i < |routes[1..]| && Selects(routes[1..][i], pathname) &&
               GetParentPath(routes[1..], pathname) == routes[1..][i].path;
      assert routes[1..][i] == routes[i + 1];
    }
  }

  /** A route covers everything below it. */
  lemma CoversBelow(path: string, rest: string)
    ensures Covers(path, path + "/" + rest)
  {
    assert (path + "/" + rest)[..|path + "/"|] == path + "/";
  }

  /** The '/' boundary: '/user' does not cover '/users', or any other
      location continuing its path with a character other than '/'. */
  lemma NoPartialSegment(path: string, c: char, rest: string)
    requires c != '/'
    ensures !Covers(path, path + [c] + rest)
  {
    var s := path + [c] + rest;
    assert s[|path|] == c;
    assert (path + "/")[|path|] == '/';
  }
}
