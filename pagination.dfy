/** The offset pagination the product and user listings share: `page` and
    `limit` arrive as optional query strings with numeric defaults, the
    database skips `(page - 1) * limit` rows and takes `limit`, and the
    answer reports `pages = Math.ceil(total / limit)`. */
module Pagination {
  import opened Common
  import opened Text

  const DefaultPage := 1
  const ProductPageSize := 12
  const UserPageSize := 20

  /** `const { page = 1 } = req.query` followed by `parseInt(page)`: the
      default applies only when the parameter is absent. */
  function NumberParam(q: Option<string>, default: int): Option<int> {
    match q
    case None => Some(default)
    case Some(s) => ParseInt(s)
  }

  function Skip(page: int, limit: int): int {
    (page - 1) * limit
  }

  function Min(a: int, b: int): int {
    if a <= b then a else b
  }

  /** `Math.ceil(total / limit)`. A zero limit gives Infinity (or NaN for an
      empty table), which the JSON answer carries as `null`: `None`. */
  function PageCount(total: nat, limit: int): (r: Option<int>)
    ensures r.None? <==> limit == 0
    ensures limit > 0 ==> r.value >= 0
    ensures limit < 0 ==> r.value <= 0
  {
    if limit == 0 then None
    else if limit > 0 then Some((total + limit - 1) / limit)
    else Some(-(total / -limit))
  }

  /** The page count is the ceiling of total / limit for either sign of limit:
      the least multiple of a positive limit that reaches total, or the
      greatest multiple of a negative one that stays at or below it. */
  lemma PageCountIsCeiling(total: nat, limit: int)
    requires limit != 0
    ensures limit > 0 ==> PageCount(total, limit).value * limit >= total
                          && (PageCount(total, limit).value - 1) * limit < total
    ensures limit < 0 ==> PageCount(total, limit).value * limit <= total
                          && (PageCount(total, limit).value - 1) * limit > total
  {
    if limit > 0 {
      CeilingBounds(total, limit);
    } else {
      var d := -limit;
      var q := total / d;
      FloorBounds(total, d);
      assert PageCount(total, limit).value == -q;
      assert -q * limit == q * d;
      assert (-q - 1) * limit == (q + 1) * d;
    }
  }

  lemma CeilingBounds(total: nat, limit: int)
    requires limit > 0
    ensures ((total + limit - 1) / limit) * limit >= total
    ensures ((total + limit - 1) / limit - 1) * limit < total
  {
    var q := (total + limit - 1) / limit;
    var m := (total + limit - 1) % limit;
    assert q * limit + m == total + limit - 1;
    assert (q - 1) * limit == q * limit - limit;
  }

  lemma FloorBounds(total: nat, d: int)
    requires d > 0
    ensures (total / d) * d <= total
    ensures (total / d + 1) * d > total
  {
    var q := total / d;
    var m := total % d;
    assert q * d + m == total;
    assert (q + 1) * d == q * d + d;
  }

  /** `skip` rows dropped, then at most `take` rows kept. */
  function Window<T>(rows: seq<T>, skip: nat, take: nat): (r: seq<T>)
    ensures |r| == if skip >= |rows| then 0 else Min(take, |rows| - skip)
    ensures forall i :: 0 <= i < |r| ==> r[i] == rows[skip + i]
  {
    if skip >= |rows| then [] else rows[skip..Min(skip + take, |rows|)]
  }

  datatype PageInfo = PageInfo(page: int, limit: int, total: nat, pages: Option<int>)

  /** One page of `rows` (already filtered and ordered) and the pagination
      block of the answer. An unparsable page or limit makes the query
      throw, and so does a negative skip or take. */
  function Paginate<T>(rows: seq<T>, page: Option<string>, limit: Option<string>, defaultLimit: int)
    : (r: Result<(seq<T>, PageInfo), Error>)
    ensures r.Err? ==> r.error == ServerError
    ensures r.Ok? <==> NumberParam(page, DefaultPage).Some? && NumberParam(limit, defaultLimit).Some?
                       && Skip(NumberParam(page, DefaultPage).value, NumberParam(limit, defaultLimit).value) >= 0
                       && NumberParam(limit, defaultLimit).value >= 0
    ensures r.Ok? ==>
      var p := NumberParam(page, DefaultPage).value;
      var l := NumberParam(limit, defaultLimit).value;
      && r.value.1 == PageInfo(p, l, |rows|, PageCount(|rows|, l))
      && |r.value.0| == (if Skip(p, l) >= |rows| then 0 else Min(l, |rows| - Skip(p, l)))
      && forall i :: 0 <= i < |r.value.0| ==> Skip(p, l) + i < |rows| && r.value.0[i] == rows[Skip(p, l) + i]
  {
    match (NumberParam(page, DefaultPage), NumberParam(limit, defaultLimit))
    case (Some(p), Some(l)) =>
      if Skip(p, l) < 0 || l < 0 then Err(ServerError)
      else Ok((Window(rows, Skip(p, l), l), PageInfo(p, l, |rows|, PageCount(|rows|, l))))
    case _ => Err(ServerError)
  }

  /** With neither parameter the first page of the default size is served. */
  lemma DefaultsServeFirstPage<T>(rows: seq<T>, defaultLimit: nat)
    ensures Paginate(rows, None, None, defaultLimit)
            == Ok((rows[..Min(defaultLimit, |rows|)], PageInfo(1, defaultLimit, |rows|, PageCount(|rows|, defaultLimit))))
  {
  }

  lemma SkipNonNegative(page: nat, limit: nat)
    requires page >= 1
    ensures Skip(page, limit) >= 0
  {
    var k: nat := page - 1;
    assert Skip(page, limit) == k * limit;
  }

  /** Pages 1 .. pages hold rows and every later page is empty. */
  lemma {:induction false} PageNonEmptyIff<T>(rows: seq<T>, page: nat, limit: nat)
    requires page >= 1 && limit > 0
    ensures Skip(page, limit) >= 0
    ensures Window(rows, Skip(page, limit), limit) != [] <==> page <= PageCount(|rows|, limit).value
  {
    SkipNonNegative(page, limit);
    PageCountIsCeiling(|rows|, limit);
    var n := PageCount(|rows|, limit).value;
    if page <= n {
      MulMonotone(page - 1, n - 1, limit);
    } else {
      MulMonotone(n, page - 1, limit);
    }
  }

  lemma MulMonotone(a: int, b: int, c: nat)
    requires a <= b
    ensures a * c <= b * c
  {
    var d: nat := b - a;
    assert b * c == a * c + d * c;
  }

  /** Pages 1 .. k one after the other. */
  function FirstPages<T>(rows: seq<T>, limit: nat, k: nat): seq<T> {
    if k == 0 then []
    else
      SkipNonNegative(k, limit);
      FirstPages(rows, limit, k - 1) + Window(rows, Skip(k, limit), limit)
  }

  lemma {:induction false} FirstPagesPrefix<T>(rows: seq<T>, limit: nat, k: nat)
    ensures k * limit >= 0
    ensures FirstPages(rows, limit, k) == rows[..Min(k * limit, |rows|)]
  {
    MulMonotone(0, k, limit);
    if k > 0 {
      FirstPagesPrefix(rows, limit, k - 1);
      SkipNonNegative(k, limit);
      assert Skip(k, limit) == (k - 1) * limit;
      assert k * limit == (k - 1) * limit + limit;
    }
  }

  /** Reading pages 1 .. pages in turn returns every row exactly once, in
      order. */
  lemma PagesCoverRows<T>(rows: seq<T>, limit: nat)
    requires limit > 0
    ensures FirstPages(rows, limit, PageCount(|rows|, limit).value) == rows
  {
    var n := PageCount(|rows|, limit).value;
    PageCountIsCeiling(|rows|, limit);
    FirstPagesPrefix(rows, limit, n);
  }
}
