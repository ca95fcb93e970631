/** The read side shared by the list operations: ordering ids by a numeric key
    (`.sort({ createdAt: -1 })`, `.sort({ checkIn: 1 })`), the skip/limit page
    slice and the pagination envelope returned with each page. */
module Query {
  import opened Common
  import opened Time

  /** `{ currentPage, totalPages, total…, hasNext, hasPrev }`. */
  datatype PageInfo = PageInfo(currentPage: int, totalPages: int, totalItems: nat, hasNext: bool, hasPrev: bool)

  /** `(page - 1) * limit`: how many matching records precede the page. */
  function Skip(page: int, limit: int): (s: int)
    ensures page >= 1 && limit >= 0 ==> s >= 0
  {
    (page - 1) * limit
  }

  /** The envelope for page `page` of `total` matching records, `limit` per page. */
  function Envelope(page: int, limit: int, total: nat): (p: PageInfo)
    requires limit >= 1
    ensures p.currentPage == page && p.totalItems == total
    ensures p.totalPages >= 0 && (p.totalPages - 1) * limit < total <= p.totalPages * limit
  {
    var pages := CeilDiv(total, limit);
    PageInfo(page, pages, total, page < pages, page > 1)
  }

  lemma MulMonotone(a: int, b: int, c: int)
    requires a <= b && c >= 0
    ensures a * c <= b * c
  {
  }

  /** There is a next page exactly when records remain after this one, and a previous
      page exactly when this is not the first. */
  lemma {:induction false} EnvelopeNeighbours(page: int, limit: int, total: nat)
    requires page >= 1 && limit >= 1
    ensures Envelope(page, limit, total).hasNext <==> Skip(page, limit) + limit < total
    ensures Envelope(page, limit, total).hasPrev <==> Skip(page, limit) > 0
  {
    var p := Envelope(page, limit, total);
    assert Skip(page, limit) + limit == page * limit;
    if page < p.totalPages {
      MulMonotone(page, p.totalPages - 1, limit);
    } else {
      MulMonotone(p.totalPages, page, limit);
    }
    if page > 1 {
      MulMonotone(1, page - 1, limit);
    }
  }

  function Min(a: int, b: int): int {
    if a <= b then a else b
  }

  /** `.skip(Skip(page, limit)).limit(limit)` applied to the ordered result `xs`. */
  function PageOf<T>(xs: seq<T>, page: int, limit: int): (r: seq<T>)
    requires page >= 1 && limit >= 1
    ensures |r| == if Skip(page, limit) >= |xs| then 0 else Min(limit, |xs| - Skip(page, limit))
    ensures forall i :: 0 <= i < |r| ==> r[i] == xs[Skip(page, limit) + i]
  {
    var from := Skip(page, limit);
    if from >= |xs| then [] else xs[from..Min(from + limit, |xs|)]
  }

  /** A page holds records exactly when its number is at most `totalPages`. */
  lemma {:induction false} PageNonEmptyWithinTotal<T>(xs: seq<T>, page: int, limit: int)
    requires page >= 1 && limit >= 1
    ensures |PageOf(xs, page, limit)| > 0 <==> page <= Envelope(page, limit, |xs|).totalPages
  {
    var p := Envelope(page, limit, |xs|);
    if page <= p.totalPages {
      MulMonotone(page - 1, p.totalPages - 1, limit);
    } else {
      MulMonotone(p.totalPages, page - 1, limit);
    }
  }

  predicate InOrder(x: int, y: int, descending: bool) {
    if descending then x >= y else x <= y
  }

  predicate Distinct(xs: seq<Id>) {
    forall i, j :: 0 <= i < j < |xs| ==> xs[i] != xs[j]
  }

  /** `xs` lists its ids in order of `key` (non-increasing when `descending`). */
  predicate SortedBy(xs: seq<Id>, key: map<Id, int>, descending: bool) {
    && (forall i :: 0 <= i < |xs| ==> xs[i] in key)
    && (forall i, j :: 0 <= i < j < |xs| ==> InOrder(key[xs[i]], key[xs[j]], descending))
  }

  /** A finite non-empty set of ids has a first element in the ordering. */
  lemma {:induction false} FirstExists(ids: set<Id>, key: map<Id, int>, descending: bool)
    requires ids != {} && ids <= key.Keys
    ensures exists m :: m in ids && forall y :: y in ids ==> InOrder(key[m], key[y], descending)
  {
    var x :| x in ids;
    if ids != {x} {
      var rest := ids - {x};
      FirstExists(rest, key, descending);
      var m :| m in rest && forall y :: y in rest ==> InOrder(key[m], key[y], descending);
      if InOrder(key[m], key[x], descending) {
        assert forall y :: y in ids ==> InOrder(key[m], key[y], descending);
      } else {
        assert forall y :: y in ids ==> InOrder(key[x], key[y], descending);
      }
    }
  }

  /** `xs` lists the ids of `ids`, each once, ordered by `key`. */
  ghost predicate IsOrdering(xs: seq<Id>, ids: set<Id>, key: map<Id, int>, descending: bool) {
    && Distinct(xs) && |xs| == |ids|
    && (forall x :: x in xs <==> x in ids)
    && SortedBy(xs, key, descending)
  }

  /** The ids of `ids`, each once, ordered by `key` (a database sort; the order of
      records with equal keys is unspecified). */
  method SortIds(ids: set<Id>, key: map<Id, int>, descending: bool) returns (r: seq<Id>)
    requires ids <= key.Keys
    ensures Distinct(r) && |r| == |ids|
    ensures forall x :: x in r <==> x in ids
    ensures SortedBy(r, key, descending)
    ensures IsOrdering(r, ids, key, descending)
  {
    r := [];
    var rest := ids;
    while rest != {}
      invariant rest <= ids
      invariant forall x :: x in r <==> x in ids && x !in rest
      invariant Distinct(r) && |r| + |rest| == |ids|
      invariant SortedBy(r, key, descending)
      invariant forall i, y :: 0 <= i < |r| && y in rest ==> InOrder(key[r[i]], key[y], descending)
      decreases |rest|
    {
      FirstExists(rest, key, descending);
      var m :| m in rest && forall y :: y in rest ==> InOrder(key[m], key[y], descending);
      r := r + [m];
      rest := rest - {m};
    }
  }

  /** One page of `ids` sorted by `key`: the query `find(...).sort(...).skip(...).limit(...)`. */
  method SortedPage(ids: set<Id>, key: map<Id, int>, descending: bool, page: int, limit: int) returns (items: seq<Id>)
    requires ids <= key.Keys && page >= 1 && limit >= 1
    ensures |items| <= limit
    ensures forall i :: 0 <= i < |items| ==> items[i] in ids
    ensures exists all :: IsOrdering(all, ids, key, descending) && items == PageOf(all, page, limit)
  {
    var all := SortIds(ids, key, descending);
    items := PageOf(all, page, limit);
    forall i | 0 <= i < |items|
      ensures items[i] in ids
    {
      assert items[i] == all[Skip(page, limit) + i];
    }
  }
}
