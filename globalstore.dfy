/** The global UI slice: the colour theme and the ids of the requests in
    flight. A reducer changes the slice in place, so the slice is a class
    and each reducer a method on it. */
module GlobalStore {
  import opened Wrappers

  datatype Theme = Light | Dark

  /** `Partial<State>`: a field left out of the payload is `None`. */
  datatype GlobalPatch = GlobalPatch(theme: Option<Theme>, requests: Option<seq<string>>)

  /** `requests.filter(id => id !== target)`. */
  function RemoveAll(requests: seq<string>, target: string): (r: seq<string>)
    ensures forall id :: id in r <==> id in requests && id != target
    ensures |r| <= |requests|
    decreases |requests|
  {
    if requests == [] then []
    else (if requests[0] != target then [requests[0]] else []) + RemoveAll(requests[1..], target)
  }

  /** The filter keeps the survivors in their order: it distributes over
      concatenation. */
  lemma {:induction false} RemoveAllAppend(a: seq<string>, b: seq<string>, target: string)
    ensures RemoveAll(a + b, target) == RemoveAll(a, target) + RemoveAll(b, target)
    decreases |a|
  {
    if a == [] {
      assert a + b == b;
    } else {
      assert (a + b)[0] == a[0];
      assert (a + b)[1..] == a[1..] + b;
      RemoveAllAppend(a[1..], b, target);
    }
  }

  /** Removing an id that is not there changes nothing. */
  lemma {:induction false} RemoveAbsent(requests: seq<string>, target: string)
    requires target !in requests
    ensures RemoveAll(requests, target) == requests
    decreases |requests|
  {
    if requests != [] {
      RemoveAbsent(requests[1..], target);
      assert [requests[0]] + requests[1..] == requests;
    }
  }

  /** Appending a fresh id and then removing it restores the list. */
  lemma AppendThenRemove(requests: seq<string>, id: string)
    requires id !in requests
    ensures RemoveAll(requests + [id], id) == requests
  {
    RemoveAllAppend(requests, [id], id);
    RemoveAbsent(requests, id);
    assert RemoveAll([id], id) == [] + RemoveAll([], id);
  }

  /** Removing twice is removing once. */
  lemma RemoveIdempotent(requests: seq<string>, target: string)
    ensures RemoveAll(RemoveAll(requests, target), target) == RemoveAll(requests, target)
  {
    RemoveAbsent(RemoveAll(requests, target), target);
  }

  /** The initial theme: the stored one, else the system preference. */
  function InitialTheme(userTheme: Option<Theme>, systemPrefersDark: bool): (t: Theme)
    ensures userTheme.Some? ==> t == userTheme.value
    ensures userTheme.None? ==> (t == Dark <==> systemPrefersDark)
  {
    if userTheme.Some? then userTheme.value
    else if systemPrefersDark then Dark else Light
  }

  class GlobalState {
    var theme: Theme
    var requests: seq<string>

    /** The initial state, from the stored theme and the colour-scheme
        media query, which are read once at start-up. */
    constructor (userTheme: Option<Theme>, systemPrefersDark: bool)
      ensures theme == InitialTheme(userTheme, systemPrefersDark)
      ensures requests == []
    {
      theme := InitialTheme(userTheme, systemPrefersDark);
      requests := [];
    }

    /** `setGlobalState`: every field present in the payload overwrites the
        state's, every other field keeps its value. */
    method SetGlobalState(payload: GlobalPatch)
      modifies this
      ensures theme == payload.theme.GetOr(old(theme))
      ensures requests == payload.requests.GetOr(old(requests))
    {
      if payload.theme.Some? {
        theme := payload.theme.value;
      }
      if payload.requests.Some? {
        requests := payload.requests.value;
      }
    }

    /** `appendRequest`: the id goes at the end. */
    method AppendRequest(id: string)
      modifies this
      ensures requests == old(requests) + [id]
      ensures theme == old(theme)
    {
      requests := requests + [id];
    }

    /** `removeRequest`: every occurrence of the id goes, the rest stay in
        order. */
    method RemoveRequest(id: string)
      modifies this
      ensures requests == RemoveAll(old(requests), id)
      ensures theme == old(theme)
    {
      requests := RemoveAll(requests, id);
    }
  }
}
