/** Page/limit normalisation and the pagination block of list responses.
    Query values arrive as the result of JavaScript's `parseInt`: `None`
    stands for NaN (missing or unparsable text). */
module Pagination {
  import opened Common

  datatype PaginationParams = PaginationParams(offset: int, limit: int, page: int)

  datatype PageInfo = PageInfo(
    total: nat, page: int, limit: int, totalPages: nat,
    hasNextPage: bool, hasPrevPage: bool)

  datatype Paginated<T> = Paginated(data: seq<T>, pagination: PageInfo)

  /** `parseInt(page) || 1`, then anything below 1 becomes 1. */
  function ValidPage(parsed: Option<int>): (p: int)
    ensures p >= 1
    ensures parsed.Some? && parsed.value >= 1 ==> p == parsed.value
    ensures parsed.None? || parsed.value < 1 ==> p == 1
  {
    var pageNum := if parsed.None? || parsed.value == 0 then 1 else parsed.value;
    if pageNum < 1 then 1 else pageNum
  }

  /** `parseInt(limit) || 10`, then below 1 becomes 10 and above 100 becomes 100. */
  function ValidLimit(parsed: Option<int>): (l: int)
    ensures 1 <= l <= 100
    ensures parsed.Some? && 1 <= parsed.value <= 100 ==> l == parsed.value
    ensures parsed.Some? && parsed.value > 100 ==> l == 100
    ensures parsed.None? || parsed.value < 1 ==> l == 10
  {
    var limitNum := if parsed.None? || parsed.value == 0 then 10 else parsed.value;
    if limitNum < 1 then 10 else if limitNum > 100 then 100 else limitNum
  }

  function GetPaginationParams(page: Option<int>, limit: Option<int>): (r: PaginationParams)
    ensures r.page == ValidPage(page) && r.limit == ValidLimit(limit)
    ensures r.offset >= 0 && r.offset % r.limit == 0
    ensures r.offset / r.limit == r.page - 1
  {
    var validPage := ValidPage(page);
    var validLimit := ValidLimit(limit);
    var offset := (validPage - 1) * validLimit;
    assert offset % validLimit == 0 && offset / validLimit == validPage - 1 by {
      MultipleDivides(validPage - 1, validLimit);
    }
    PaginationParams(offset, validLimit, validPage)
  }

  lemma MultipleDivides(k: nat, l: int)
    requires l >= 1
    ensures (k * l) % l == 0 && (k * l) / l == k
  {
    var n := k * l;
    var q, m := n / l, n % l;
    assert n == q * l + m && 0 <= m < l;
    assert (k - q) * l == m;
    if k - q >= 1 {
      TimesMonotone(1, k - q, l);
    } else if k - q <= -1 {
      TimesMonotone(k - q, -1, l);
    }
  }

  /** `Math.ceil(count / limit)` over the integers. */
  function TotalPages(count: nat, limit: int): (t: nat)
    requires limit >= 1
    ensures count == 0 ==> t == 0
    ensures count > 0 ==> (t - 1) * limit < count <= t * limit
  {
    var t := (count + limit - 1) / limit;
    CeilingBounds(count, limit, t);
    t
  }

  lemma CeilingBounds(count: nat, limit: int, t: nat)
    requires limit >= 1 && t == (count + limit - 1) / limit
    ensures count == 0 ==> t == 0
    ensures count > 0 ==> (t - 1) * limit < count <= t * limit
  {
    var q := count + limit - 1;
    assert q == t * limit + q % limit;
    assert 0 <= q % limit < limit;
    if count == 0 {
      assert q < limit;
    }
  }

  function BuildPaginationResponse<T>(data: seq<T>, count: nat, page: int, limit: int): (r: Paginated<T>)
    requires limit >= 1
    ensures r.data == data && r.pagination.total == count
    ensures r.pagination.page == page && r.pagination.limit == limit
    ensures r.pagination.totalPages == TotalPages(count, limit)
    ensures r.pagination.hasNextPage <==> page < r.pagination.totalPages
    ensures r.pagination.hasPrevPage <==> page > 1
  {
    var totalPages := TotalPages(count, limit);
    Paginated(data, PageInfo(count, page, limit, totalPages, page < totalPages, page > 1))
  }

  /** Normalised values fed back in come out unchanged. */
  lemma GetPaginationParamsIdempotent(page: Option<int>, limit: Option<int>)
    ensures var r := GetPaginationParams(page, limit);
            GetPaginationParams(Some(r.page), Some(r.limit)) == r
  {
  }

  /** There is a next page exactly when rows remain beyond the current one. */
  lemma {:induction false} HasNextPageMeansMoreRows<T>(data: seq<T>, count: nat, page: int, limit: int)
    requires limit >= 1
    ensures BuildPaginationResponse(data, count, page, limit).pagination.hasNextPage
            <==> page * limit < count
  {
    var t := TotalPages(count, limit);
    if count == 0 {
      assert t == 0;
      if page < 0 { TimesMonotone(page, 0, limit); }
      else { TimesMonotone(0, page, limit); }
    } else if page < t {
      TimesMonotone(page, t - 1, limit);
    } else {
      TimesMonotone(t, page, limit);
    }
  }

  lemma TimesMonotone(a: int, b: int, l: int)
    requires l >= 1 && a <= b
    ensures a * l <= b * l
  {
    assert b * l - a * l == (b - a) * l;
  }
}
