/** The tabs-view store of the admin front end: the open tabs, in opening
    order, and the path of the active one. The first tab is the dashboard
    and cannot be closed. A reducer that reads a missing tab throws; the
    model reports that as a `false` success flag and leaves the state as it
    was, as a throwing reducer does. */
module TabsView {
  import opened Wrappers

  datatype TabItem = TabItem(name: string, path: string, closable: bool)

  /** No two tabs share a path. `addTab` keeps this. */
  predicate UniquePaths(tabs: seq<TabItem>) {
    forall i, j :: 0 <= i < j < |tabs| ==> tabs[i].path != tabs[j].path
  }

  predicate HasPath(tabs: seq<TabItem>, path: string) {
    exists i :: 0 <= i < |tabs| && tabs[i].path == path
  }

  /** `tabs.filter(tab => tab.path !== target)`. */
  function Without(tabs: seq<TabItem>, target: string): (r: seq<TabItem>)
    ensures |r| <= |tabs|
    decreases |tabs|
  {
    if tabs == [] then []
    else (if tabs[0].path == target then [] else [tabs[0]]) + Without(tabs[1..], target)
  }

  /** The filter keeps exactly the tabs with another path. */
  lemma {:induction false} WithoutMembers(tabs: seq<TabItem>, target: string, t: TabItem)
    ensures t in Without(tabs, target) <==> t in tabs && t.path != target
    decreases |tabs|
  {
    if tabs != [] {
      WithoutMembers(tabs[1..], target, t);
      assert t in tabs <==> t == tabs[0] || t in tabs[1..];
    }
  }

  /** The `forEach` over the tabs that splices the target out while it
      iterates: it visits indices i .. n-1 of the original length n, reads
      the element now at index i, and after a splice the next element has
      moved down and is skipped. `last` is `lastIndex`. */
  function Sweep(tabs: seq<TabItem>, target: string, i: nat, n: nat, last: int): (seq<TabItem>, int)
    decreases n - i
  {
    if i >= n then (tabs, last)
    else if i < |tabs| && tabs[i].path == target then
      Sweep(tabs[..i] + tabs[i + 1..], target, i + 1, n, i - 1)
    else Sweep(tabs, target, i + 1, n, last)
  }

  /** The state after `removeTab(target)`, or `None` when the reducer throws
      (no tabs at all, or a `tabList[lastIndex]` that does not exist). */
  datatype TabState = TabState(tabs: seq<TabItem>, activeTabId: string)

  function RemoveTabSpec(s: TabState, target: string): (r: Option<TabState>)
  {
    if s.tabs == [] then None
    else if target == s.tabs[0].path then Some(s)
    else
      var (tabs, last) := Sweep(s.tabs, target, 0, |s.tabs|, 0);
      var tabList := Without(tabs, target);
      if |tabList| > 0 && s.activeTabId == target then
        if last >= 0 then
          if last < |tabList| then Some(TabState(tabs, tabList[last].path)) else None
        else Some(TabState(tabs, tabList[0].path))
      else Some(TabState(tabs, s.activeTabId))
  }

  /** With unique paths the sweep removes the one tab with the target path,
      at index k, and leaves `lastIndex` at k - 1; with no such tab it
      changes nothing. */
  lemma {:induction false} SweepUnique(tabs: seq<TabItem>, target: string, i: nat, last: int)
    requires i <= |tabs|
    requires UniquePaths(tabs)
    requires forall j :: 0 <= j < i ==> tabs[j].path != target
    ensures var (r, l) := Sweep(tabs, target, i, |tabs|, last);
            r == Without(tabs, target) &&
            (forall k :: i <= k < |tabs| && tabs[k].path == target ==> l == k - 1) &&
            (!HasPath(tabs, target) ==> l == last)
    decreases |tabs| - i
  {
    if i < |tabs| {
      if tabs[i].path == target {
        var rest := tabs[..i] + tabs[i + 1..];
        assert forall j :: i + 1 <= j < |rest| ==> rest[j] == tabs[j + 1];
        SweepNoTarget(rest, target, i + 1, |tabs|, i - 1);
        UniqueOnlyAt(tabs, i);
        WithoutUnique(tabs, target, i);
      } else {
        SweepUnique(tabs, target, i + 1, last);
      }
    } else {
      WithoutNone(tabs, target);
    }
  }

  /** With no target left from index i on, the sweep changes nothing. */
  lemma {:induction false} SweepNoTarget(tabs: seq<TabItem>, target: string, i: nat, n: nat, last: int)
    requires forall j :: i <= j < |tabs| ==> tabs[j].path != target
    ensures Sweep(tabs, target, i, n, last) == (tabs, last)
    decreases n - i
  {
    if i < n {
      SweepNoTarget(tabs, target, i + 1, n, last);
    }
  }

  lemma {:induction false} WithoutNone(tabs: seq<TabItem>, target: string)
    requires forall j :: 0 <= j < |tabs| ==> tabs[j].path != target
    ensures Without(tabs, target) == tabs
    decreases |tabs|
  {
    if tabs != [] {
      WithoutNone(tabs[1..], target);
      assert [tabs[0]] + tabs[1..] == tabs;
    }
  }

  lemma {:induction false} WithoutAppend(a: seq<TabItem>, b: seq<TabItem>, target: string)
    ensures Without(a + b, target) == Without(a, target) + Without(b, target)
    decreases |a|
  {
    if a == [] {
      assert a + b == b;
    } else {
      var first := if a[0].path == target then [] else [a[0]];
      assert (a + b)[0] == a[0];
      assert (a + b)[1..] == a[1..] + b;
      assert Without(a + b, target) == first + Without(a[1..] + b, target);
      WithoutAppend(a[1..], b, target);
      SeqAssoc(first, Without(a[1..], target), Without(b, target));
    }
  }

  /** Index k is the only one holding the target path. */
  predicate OnlyAt(tabs: seq<TabItem>, target: string, k: nat) {
    forall j :: 0 <= j < |tabs| && j != k ==> tabs[j].path != target
  }

  lemma UniqueOnlyAt(tabs: seq<TabItem>, k: nat)
    requires k < |tabs| && UniquePaths(tabs)
    ensures OnlyAt(tabs, tabs[k].path, k)
  {
    forall j | 0 <= j < |tabs| && j != k ensures tabs[j].path != tabs[k].path {
      if j < k {
        assert tabs[j].path != tabs[k].path;
      } else {
        assert tabs[k].path != tabs[j].path;
      }
    }
  }

  lemma SeqAssoc<T>(x: seq<T>, y: seq<T>, z: seq<T>)
    ensures x + (y + z) == (x + y) + z
  {
  }

  /** Removing the only tab with the target path, at index k. */
  lemma WithoutUnique(tabs: seq<TabItem>, target: string, k: nat)
    requires k < |tabs| && tabs[k].path == target
    requires OnlyAt(tabs, target, k)
    ensures Without(tabs, target) == tabs[..k] + tabs[k + 1..]
  {
    var pre, post := tabs[..k], tabs[k + 1..];
    assert tabs == pre + ([tabs[k]] + post);
    forall j | 0 <= j < |pre| ensures pre[j].path != target {
      assert pre[j] == tabs[j];
    }
    forall j | 0 <= j < |post| ensures post[j].path != target {
      assert post[j] == tabs[k + 1 + j];
    }
    WithoutAppend(pre, [tabs[k]] + post, target);
    WithoutAppend([tabs[k]], post, target);
    WithoutNone(pre, target);
    WithoutNone(post, target);
    assert [tabs[k]][1..] == [];
    assert Without([tabs[k]], target) == [];
  }

  /** `removeTab` of a tab other than the first, at index k, in a store
      with unique paths: that tab goes, the others keep their order, and if
      it was active the tab just left of it becomes active. */
  lemma RemoveTabPresent(s: TabState, target: string, k: nat)
    requires UniquePaths(s.tabs)
    requires 0 < k < |s.tabs| && s.tabs[k].path == target
    ensures RemoveTabSpec(s, target) ==
            Some(TabState(Without(s.tabs, target), if s.activeTabId == target then s.tabs[k - 1].path else s.activeTabId))
  {
    assert target != s.tabs[0].path;
    SweepUnique(s.tabs, target, 0, 0);
    var sw := Sweep(s.tabs, target, 0, |s.tabs|, 0);
    var tabs := sw.0;
    UniqueOnlyAt(s.tabs, k);
    WithoutUnique(s.tabs, target, k);
    assert tabs == s.tabs[..k] + s.tabs[k + 1..];
    assert sw.1 == k - 1;
    assert forall j :: 0 <= j < |tabs| ==> tabs[j].path != target;
    WithoutNone(tabs, target);
    assert tabs[k - 1] == s.tabs[k - 1];
  }

  /** `removeTab` of a path no tab has: the tabs stay, and if that path was
      active the first tab becomes active. */
  lemma RemoveTabAbsent(s: TabState, target: string)
    requires UniquePaths(s.tabs) && s.tabs != []
    requires !HasPath(s.tabs, target)
    ensures RemoveTabSpec(s, target) ==
            Some(TabState(s.tabs, if s.activeTabId == target then s.tabs[0].path else s.activeTabId))
  {
    assert target != s.tabs[0].path;
    SweepNoTarget(s.tabs, target, 0, |s.tabs|, 0);
    WithoutNone(s.tabs, target);
  }

  /** On a store with unique paths `removeTab` never throws, and the first
      tab's path is a no-op. */
  lemma RemoveTabUnique(s: TabState, target: string)
    requires UniquePaths(s.tabs) && s.tabs != []
    ensures RemoveTabSpec(s, target).Some?
    ensures target == s.tabs[0].path ==> RemoveTabSpec(s, target) == Some(s)
    ensures RemoveTabSpec(s, target).value.tabs == Without(s.tabs, target) || target == s.tabs[0].path
  {
    if target != s.tabs[0].path {
      if k :| 0 < k < |s.tabs| && s.tabs[k].path == target {
        RemoveTabPresent(s, target, k);
      } else {
        assert !HasPath(s.tabs, target);
        RemoveTabAbsent(s, target);
        WithoutNone(s.tabs, target);
      }
    }
  }

  /** Removing a tab keeps the paths unique. */
  lemma WithoutKeepsUnique(tabs: seq<TabItem>, target: string)
    requires UniquePaths(tabs)
    ensures UniquePaths(Without(tabs, target))
  {
    if k :| 0 <= k < |tabs| && tabs[k].path == target {
      WithoutUnique(tabs, target, k);
    } else {
      WithoutNone(tabs, target);
    }
  }

  /** The first tab with the given path: `tabs.find(tab => tab.path === p)`. */
  function Find(tabs: seq<TabItem>, path: string): (r: Option<TabItem>)
    ensures r.Some? <==> HasPath(tabs, path)
    ensures r.Some? ==> r.value in tabs && r.value.path == path
    decreases |tabs|
  {
    if tabs == [] then None
    else if tabs[0].path == path then Some(tabs[0])
    else
      var r := Find(tabs[1..], path);
      assert HasPath(tabs, path) ==> HasPath(tabs[1..], path) by {
        if HasPath(tabs, path) {
          var i :| 0 <= i < |tabs| && tabs[i].path == path;
          assert tabs[1..][i - 1] == tabs[i];
        }
      }
      assert r.Some? ==> HasPath(tabs, path) by {
        if r.Some? {
          var i :| 0 <= i < |tabs[1..]| && tabs[1..][i].path == path;
          assert tabs[i + 1].path == path;
        }
      }
      r
  }

  class TabsStore {
    var activeTabId: string
    var tabs: seq<TabItem>

    /** The initial state: no tabs, the current location's path active. */
    constructor(pathname: string)
      ensures activeTabId == pathname && tabs == []
    {
      activeTabId := pathname;
      tabs := [];
    }

    /** `setActiveTab(path)`: only the active path changes. */
    method SetActiveTab(path: string)
      modifies this
      ensures activeTabId == path && tabs == old(tabs)
    {
      activeTabId := path;
    }

    /** `addTab(tab)`: appended iff no tab has its path; it becomes active
        either way. */
    method AddTab(tab: TabItem)
      modifies this
      ensures tabs == (if HasPath(old(tabs), tab.path) then old(tabs) else old(tabs) + [tab])
      ensures activeTabId == tab.path
      ensures UniquePaths(old(tabs)) ==> UniquePaths(tabs)
      ensures HasPath(tabs, activeTabId)
    {
      var found := Find(tabs, tab.path);
      if found.None? {
        tabs := tabs + [tab];
        assert tabs[|tabs| - 1].path == tab.path;
      }
      activeTabId := tab.path;
    }

    /** `removeTab(target)`, with its `forEach`/`splice` loop. `ok` is
        false when the reducer throws, and then nothing changes. */
    method RemoveTab(target: string) returns (ok: bool)
      modifies this
      ensures var r := RemoveTabSpec(TabState(old(tabs), old(activeTabId)), target);
              ok == r.Some? &&
              (ok ==> TabState(tabs, activeTabId) == r.value) &&
              (!ok ==> tabs == old(tabs) && activeTabId == old(activeTabId))
    {
      if tabs == [] {
        return false;
      }
      if target == tabs[0].path {
        return true;
      }
      var n := |tabs|;
      var work := tabs;
      var lastIndex := 0;
      var i := 0;
      while i < n
        invariant 0 <= i <= n
        invariant Sweep(work, target, i, n, lastIndex) == Sweep(tabs, target, 0, n, 0)
      {
        if i < |work| && work[i].path == target {
          work := work[..i] + work[i + 1..];
          lastIndex := i - 1;
        }
        i := i + 1;
      }
      var tabList := Without(work, target);
      if |tabList| > 0 && activeTabId == target {
        if lastIndex >= 0 {
          if lastIndex >= |tabList| {
            return false;
          }
          activeTabId := tabList[lastIndex].path;
        } else {
          activeTabId := tabList[0].path;
        }
      }
      tabs := work;
      ok := true;
    }

    /** `removeAllTab()`: no tabs, the current location's path active. */
    method RemoveAllTab(pathname: string)
      modifies this
      ensures tabs == [] && activeTabId == pathname
    {
      activeTabId := pathname;
      tabs := [];
    }

    /** `removeOtherTab()`: keeps the first tab and the active one. It
        throws (ok false, nothing changes) when no tab is active. */
    method RemoveOtherTab() returns (ok: bool)
      modifies this
      ensures ok <==> HasPath(old(tabs), old(activeTabId))
      ensures activeTabId == old(activeTabId)
      ensures !ok ==> tabs == old(tabs)
      ensures ok ==> var active := Find(old(tabs), activeTabId).value;
                     tabs == if active.path == old(tabs)[0].path then [old(tabs)[0]] else [old(tabs)[0], active]
    {
      var activeTab := Find(tabs, activeTabId);
      if activeTab.None? {
        return false;
      }
      var activeIsDashboard := activeTab.value.path == tabs[0].path;
      tabs := if activeIsDashboard then [tabs[0]] else [tabs[0], activeTab.value];
      ok := true;
    }
  }

  /** After `removeOtherTab` the first tab and the active tab are all that
      is left, and with unique paths the active tab is still open. */
  lemma RemoveOtherKeepsActive(tabs: seq<TabItem>, active: string)
    requires HasPath(tabs, active)
    ensures var a := Find(tabs, active).value;
            var kept := if a.path == tabs[0].path then [tabs[0]] else [tabs[0], a];
            HasPath(kept, active) && kept[0] == tabs[0] && |kept| <= 2
  {
    var a := Find(tabs, active).value;
    if a.path == tabs[0].path {
      assert [tabs[0]][0].path == active;
    } else {
      assert [tabs[0], a][1].path == active;
    }
  }
}
