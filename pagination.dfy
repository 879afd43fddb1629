/** The `paginate` helper: one page of the documents matching a filter, in
    store order, with the skip, limit, total and current page it was asked
    for. The query engine's own rules for `skip` and `limit` are stated
    explicitly: a limit of 0 means "no limit", a negative limit is taken by
    its absolute value, and a negative skip is refused. */
module Pagination {
  import opened Wrappers

  const DefaultLimit := 20
  const DefaultPage := 1

  /** The optional arguments; `None` is an argument left out, which takes
      its default. An absent filter is the empty filter, matching all. */
  datatype Query<!D> = Query(filter: Option<D -> bool>, limit: Option<int>, page: Option<int>)

  datatype PageInfo = PageInfo(skip: int, limit: int, total: nat, currentPage: int)

  datatype Page<D> = Page(data: seq<D>, pagination: PageInfo)

  /** `model.find(filter)`: the matching documents, in store order. */
  function Matches<D>(docs: seq<D>, f: D -> bool): (m: seq<D>)
    ensures |m| <= |docs|
    ensures forall i :: 0 <= i < |m| ==> f(m[i])
    decreases |docs|
  {
    if docs == [] then []
    else (if f(docs[0]) then [docs[0]] else []) + Matches(docs[1..], f)
  }

  function FilterOf<D>(q: Query<D>): D -> bool {
    if q.filter.Some? then q.filter.value else (d: D) => true
  }

  function Abs(n: int): nat {
    if n < 0 then -n else n
  }

  function Min(a: nat, b: nat): nat {
    if a <= b then a else b
  }

  /** `.skip(skip).limit(limit)` on the matching documents. */
  function Window<D>(m: seq<D>, skip: nat, limit: int): (w: seq<D>)
    ensures limit != 0 ==> |w| <= Abs(limit)
    ensures skip >= |m| ==> w == []
    ensures skip < |m| ==> |w| == if limit == 0 then |m| - skip else Min(Abs(limit), |m| - skip)
    ensures forall j :: 0 <= j < |w| ==> skip + j < |m| && w[j] == m[skip + j]
  {
    var start := Min(skip, |m|);
    if limit == 0 then m[start..] else m[start..Min(skip + Abs(limit), |m|)]
  }

  /** `paginate({model, filter, limit, page})` over the documents `docs`. */
  function Paginate<D>(docs: seq<D>, q: Query<D>): (r: Result<Page<D>, Thrown>)
    ensures r.Ok? <==> (q.page.GetOr(DefaultPage) - 1) * q.limit.GetOr(DefaultLimit) >= 0
    ensures r.Ok? ==> r.value.pagination.skip == (q.page.GetOr(DefaultPage) - 1) * q.limit.GetOr(DefaultLimit)
    ensures r.Ok? ==> r.value.pagination.total == |Matches(docs, FilterOf(q))|
    ensures r.Ok? ==> r.value.pagination.limit == q.limit.GetOr(DefaultLimit)
    ensures r.Ok? ==> r.value.pagination.currentPage == q.page.GetOr(DefaultPage)
    ensures r.Ok? ==> forall i :: 0 <= i < |r.value.data| ==> FilterOf(q)(r.value.data[i])
  {
    var limit := q.limit.GetOr(DefaultLimit);
    var page := q.page.GetOr(DefaultPage);
    var offset := (page - 1) * limit;
    if offset < 0 then Err(PlainError("skip must be non-negative"))
    else
      var m := Matches(docs, FilterOf(q));
      Ok(Page(Window(m, offset, limit), PageInfo(offset, limit, |m|, page)))
  }

  /** The data of a page, for every limit: the matches from `skip` on, all
      of them for a limit of 0 and at most the limit's absolute value
      otherwise. */
  lemma PageContents<D>(docs: seq<D>, q: Query<D>)
    requires Paginate(docs, q).Ok?
    ensures var r := Paginate(docs, q).value;
            var m := Matches(docs, FilterOf(q));
            var skip := r.pagination.skip;
            var limit := q.limit.GetOr(DefaultLimit);
            skip >= 0 &&
            |r.data| == (if skip >= |m| then 0
                         else if limit == 0 then |m| - skip
                         else Min(Abs(limit), |m| - skip)) &&
            forall j :: 0 <= j < |r.data| ==> skip + j < |m| && r.data[j] == m[skip + j]
  {
    var limit := q.limit.GetOr(DefaultLimit);
    var offset := (q.page.GetOr(DefaultPage) - 1) * limit;
    var m := Matches(docs, FilterOf(q));
    assert Paginate(docs, q) == Ok(Page(Window(m, offset, limit), PageInfo(offset, limit, |m|, q.page.GetOr(DefaultPage))));
  }

  /** With every argument left out: the first twenty documents, skip 0. */
  lemma PaginateDefaults<D>(docs: seq<D>)
    ensures Paginate(docs, Query(None, None, None)) ==
            Ok(Page(docs[..Min(20, |docs|)], PageInfo(0, 20, |docs|, 1)))
  {
    MatchesAll(docs);
  }

  lemma {:induction false} MatchesAll<D>(docs: seq<D>)
    ensures Matches(docs, (d: D) => true) == docs
    decreases |docs|
  {
    if docs != [] {
      MatchesAll(docs[1..]);
      assert [docs[0]] + docs[1..] == docs;
    }
  }

  /** Page 1 starts at the first match, whatever the limit. */
  lemma FirstPageSkipsNothing<D>(docs: seq<D>, f: Option<D -> bool>, limit: int)
    ensures Paginate(docs, Query(f, Some(limit), Some(1))).Ok?
    ensures Paginate(docs, Query(f, Some(limit), Some(1))).value.pagination.skip == 0
  {
  }

  /** With a positive limit, position j of page p holds match number
      (p - 1) * limit + j: consecutive pages tile the matches without gap or
      overlap. */
  lemma PageHoldsItsMatches<D>(docs: seq<D>, f: Option<D -> bool>, limit: int, p: int, j: int)
    requires limit > 0 && p >= 1 && 0 <= j < limit
    requires (p - 1) * limit + j < |Matches(docs, FilterOf(Query(f, Some(limit), Some(p))))|
    ensures var r := Paginate(docs, Query(f, Some(limit), Some(p)));
            r.Ok? && j < |r.value.data| &&
            r.value.data[j] == Matches(docs, FilterOf(Query(f, Some(limit), Some(p))))[(p - 1) * limit + j]
  {
    var q := Query(f, Some(limit), Some(p));
    var m := Matches(docs, FilterOf(q));
    var skip := (p - 1) * limit;
    NonNegProduct(p - 1, limit);
    assert Paginate(docs, q) == Ok(Page(Window(m, skip, limit), PageInfo(skip, limit, |m|, p)));
    assert Window(m, skip, limit) == m[skip..Min(skip + limit, |m|)];
  }

  lemma NonNegProduct(a: int, b: int)
    requires a >= 0 && b >= 0
    ensures a * b >= 0
  {
  }

  /** A page never holds more than the limit. */
  lemma PageWithinLimit<D>(docs: seq<D>, q: Query<D>)
    requires q.limit.GetOr(DefaultLimit) != 0
    requires Paginate(docs, q).Ok?
    ensures |Paginate(docs, q).value.data| <= Abs(q.limit.GetOr(DefaultLimit))
  {
  }
}
