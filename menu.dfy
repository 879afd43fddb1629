/** Role-based pruning of the side menu: `getMenuList`, `loopRoutes` and
    `getMenuItemFromRole`. An item lists the roles that may see it, or none;
    an item without its own roles inherits its parent's, and an item with
    children survives only while at least one child does. */
module RoleMenu {
  import opened Wrappers

  /** `children` left out of an item, or the array it holds. */
  datatype Children = NoChildren | Listed(items: seq<MenuItem>)

  datatype MenuItem = MenuItem(path: string, name: string, roles: Option<seq<string>>,
                               children: Children)

  /** Roles that let `role` in: none at all, or a list naming it. */
  predicate Admits(roles: Option<seq<string>>, role: string) {
    roles.None? || role in roles.value
  }

  /** `menuItemData.roles || parentRoles`: an array, even an empty one, is
      truthy, so an item's own list always wins. */
  function EffectiveRoles(item: MenuItem, parentRoles: Option<seq<string>>): Option<seq<string>> {
    if item.roles.Some? then item.roles else parentRoles
  }

  /** `getMenuItemFromRole`: the item, carrying its effective roles, when
      they admit the user's role; nothing otherwise. */
  function GetMenuItemFromRole(item: MenuItem, role: string, parentRoles: Option<seq<string>>): (r: Option<MenuItem>)
    ensures r.Some? <==> Admits(EffectiveRoles(item, parentRoles), role)
    ensures r.Some? ==> r.value == item.(roles := EffectiveRoles(item, parentRoles))
  {
    var itemRoles := if item.roles.Some? then item.roles else parentRoles;
    if itemRoles.Some? then
      if role in itemRoles.value then
        if item.roles.None? && parentRoles.Some? then Some(item.(roles := parentRoles))
        else Some(item)
      else None
    else Some(item)
  }

  /** The `map` callback of `loopRoutes`: the admitted item, its children
      pruned with its roles passed down, dropped when none survives. */
  function MapRoute(item: MenuItem, role: string, parentRoles: Option<seq<string>>): (r: Option<MenuItem>)
    ensures r.Some? ==> Admits(EffectiveRoles(item, parentRoles), role)
    ensures r.Some? ==> r.value.path == item.path && r.value.name == item.name &&
                        r.value.roles == EffectiveRoles(item, parentRoles)
    ensures item.children.NoChildren? ==> (r.Some? <==> Admits(EffectiveRoles(item, parentRoles), role))
    ensures item.children.NoChildren? && r.Some? ==> r.value.children.NoChildren?
    ensures item.children.Listed? ==>
              (r.Some? <==> Admits(EffectiveRoles(item, parentRoles), role) &&
                            LoopRoutes(item.children.items, role, EffectiveRoles(item, parentRoles)) != [])
    ensures item.children.Listed? && r.Some? ==>
              r.value.children == Listed(LoopRoutes(item.children.items, role, EffectiveRoles(item, parentRoles)))
    decreases item
  {
    var newMenu := GetMenuItemFromRole(item, role, parentRoles);
    if newMenu.None? then None
    else
      match item.children
      case NoChildren => newMenu
      case Listed(kids) =>
        var newChild := LoopRoutes(kids, role, newMenu.value.roles);
        if |newChild| > 0 then Some(newMenu.value.(children := Listed(newChild))) else None
  }

  /** `loopRoutes`: the surviving items, in their order. */
  function LoopRoutes(routes: seq<MenuItem>, role: string, parentRoles: Option<seq<string>>): (r: seq<MenuItem>)
    ensures |r| <= |routes|
    decreases routes
  {
    if routes == [] then []
    else
      var head := MapRoute(routes[0], role, parentRoles);
      (if head.Some? then [head.value] else []) + LoopRoutes(routes[1..], role, parentRoles)
  }

  /** `getMenuList`: the top level has no parent roles. */
  function GetMenuList(routes: seq<MenuItem>, role: string): (r: seq<MenuItem>)
    ensures |r| <= |routes|
  {
    LoopRoutes(routes, role, None)
  }

  /** Pruning goes item by item: it distributes over concatenation, so the
      survivors keep their input order. */
  lemma {:induction false} LoopRoutesAppend(a: seq<MenuItem>, b: seq<MenuItem>, role: string,
                                            parentRoles: Option<seq<string>>)
    ensures LoopRoutes(a + b, role, parentRoles) == LoopRoutes(a, role, parentRoles) + LoopRoutes(b, role, parentRoles)
    decreases |a|
  {
    if a == [] {
      assert a + b == b;
    } else {
      var head := MapRoute(a[0], role, parentRoles);
      var first := if head.Some? then [head.value] else [];
      assert (a + b)[0] == a[0];
      assert (a + b)[1..] == a[1..] + b;
      assert LoopRoutes(a + b, role, parentRoles) == first + LoopRoutes(a[1..] + b, role, parentRoles);
      assert LoopRoutes(a, role, parentRoles) == first + LoopRoutes(a[1..], role, parentRoles);
      LoopRoutesAppend(a[1..], b, role, parentRoles);
      SeqAssoc(first, LoopRoutes(a[1..], role, parentRoles), LoopRoutes(b, role, parentRoles));
    }
  }

  lemma SeqAssoc<T>(x: seq<T>, y: seq<T>, z: seq<T>)
    ensures x + (y + z) == (x + y) + z
  {
  }

  /** Every surviving item comes from the input at the same level: same
      path, same name. */
  lemma {:induction false} LoopRoutesFromInput(routes: seq<MenuItem>, role: string,
                                               parentRoles: Option<seq<string>>, i: int)
    requires 0 <= i < |LoopRoutes(routes, role, parentRoles)|
    ensures exists j :: 0 <= j < |routes| &&
              LoopRoutes(routes, role, parentRoles)[i].path == routes[j].path &&
              LoopRoutes(routes, role, parentRoles)[i].name == routes[j].name
    decreases |routes|
  {
    var head := MapRoute(routes[0], role, parentRoles);
    var first := if head.Some? then [head.value] else [];
    var r := LoopRoutes(routes, role, parentRoles);
    var rest := LoopRoutes(routes[1..], role, parentRoles);
    assert r == first + rest;
    if i < |first| {
      assert LoopRoutes(routes, role, parentRoles)[i] == head.value;
    } else {
      LoopRoutesFromInput(routes[1..], role, parentRoles, i - |first|);
      var j :| 0 <= j < |routes[1..]| &&
                rest[i - |first|].path == routes[1..][j].path &&
                rest[i - |first|].name == routes[1..][j].name;
      assert r[i] == rest[i - |first|];
      assert routes[1..][j] == routes[j + 1];
    }
  }

  /** Every item of a pruned tree, at every depth, carries roles that admit
      the user's role, and every child list in it is non-empty. */
  predicate Visible(items: seq<MenuItem>, role: string)
    decreases items
  {
    forall i :: 0 <= i < |items| ==> VisibleItem(items[i], role)
  }

  predicate VisibleItem(item: MenuItem, role: string)
    decreases item
  {
    Admits(item.roles, role) &&
    match item.children
    case NoChildren => true
    case Listed(kids) => kids != [] && Visible(kids, role)
  }

  lemma {:induction false} MapRouteVisible(item: MenuItem, role: string, parentRoles: Option<seq<string>>)
    requires MapRoute(item, role, parentRoles).Some?
    ensures VisibleItem(MapRoute(item, role, parentRoles).value, role)
    decreases item
  {
    match item.children
    case NoChildren =>
    case Listed(kids) =>
      LoopRoutesVisible(kids, role, EffectiveRoles(item, parentRoles));
  }

  /** What `getMenuList` returns is visible to the role throughout. */
  lemma {:induction false} LoopRoutesVisible(routes: seq<MenuItem>, role: string, parentRoles: Option<seq<string>>)
    ensures Visible(LoopRoutes(routes, role, parentRoles), role)
    decreases routes
  {
    if routes != [] {
      var r := LoopRoutes(routes, role, parentRoles);
      var head := MapRoute(routes[0], role, parentRoles);
      var rest := LoopRoutes(routes[1..], role, parentRoles);
      LoopRoutesVisible(routes[1..], role, parentRoles);
      if head.Some? {
        MapRouteVisible(routes[0], role, parentRoles);
        assert r == [head.value] + rest;
      } else {
        assert r == rest;
      }
    }
  }

  /** Pruning a pruned menu again changes nothing. */
  lemma {:induction false} MapRouteIdempotent(item: MenuItem, role: string, parentRoles: Option<seq<string>>)
    requires MapRoute(item, role, parentRoles).Some?
    ensures MapRoute(MapRoute(item, role, parentRoles).value, role, parentRoles) ==
            MapRoute(item, role, parentRoles)
    decreases item
  {
    var m := MapRoute(item, role, parentRoles).value;
    assert EffectiveRoles(m, parentRoles) == EffectiveRoles(item, parentRoles);
    match item.children
    case NoChildren =>
    case Listed(kids) =>
      var eff := EffectiveRoles(item, parentRoles);
      LoopRoutesIdempotent(kids, role, eff);
  }

  lemma {:induction false} LoopRoutesIdempotent(routes: seq<MenuItem>, role: string, parentRoles: Option<seq<string>>)
    ensures LoopRoutes(LoopRoutes(routes, role, parentRoles), role, parentRoles) == LoopRoutes(routes, role, parentRoles)
    decreases routes
  {
    if routes != [] {
      var r := LoopRoutes(routes, role, parentRoles);
      var head := MapRoute(routes[0], role, parentRoles);
      var rest := LoopRoutes(routes[1..], role, parentRoles);
      LoopRoutesIdempotent(routes[1..], role, parentRoles);
      if head.Some? {
        MapRouteIdempotent(routes[0], role, parentRoles);
        assert r == [head.value] + rest;
        LoopRoutesAppend([head.value], rest, role, parentRoles);
        assert LoopRoutes([head.value], role, parentRoles) == [head.value] + LoopRoutes([], role, parentRoles);
      } else {
        assert r == rest;
      }
    }
  }

  /** A menu that names no roles anywhere and has no empty child list is
      shown whole to every role. */
  predicate Unrestricted(items: seq<MenuItem>)
    decreases items
  {
    forall i :: 0 <= i < |items| ==> UnrestrictedItem(items[i])
  }

  predicate UnrestrictedItem(item: MenuItem)
    decreases item
  {
    item.roles.None? &&
    match item.children
    case NoChildren => true
    case Listed(kids) => kids != [] && Unrestricted(kids)
  }

  lemma {:induction false} MapRouteUnrestricted(item: MenuItem, role: string)
    requires UnrestrictedItem(item)
    ensures MapRoute(item, role, None) == Some(item)
    decreases item
  {
    match item.children
    case NoChildren =>
    case Listed(kids) =>
      LoopRoutesUnrestricted(kids, role);
  }

  lemma {:induction false} LoopRoutesUnrestricted(routes: seq<MenuItem>, role: string)
    requires Unrestricted(routes)
    ensures LoopRoutes(routes, role, None) == routes
    decreases routes
  {
    if routes != [] {
      MapRouteUnrestricted(routes[0], role);
      LoopRoutesUnrestricted(routes[1..], role);
      assert [routes[0]] + routes[1..] == routes;
    }
  }
}
