/** The admin audit page (`AdminAudit`): its filters, sort and paging
    controls, the query it sends to `GET /admin/activity`, and the page
    arithmetic it shows. */
module AdminAuditPage {
  import opened Base
  import opened Json
  import AdminAudit

  const DefaultLimit: int := 20

  /** The page sizes the page-size select offers. */
  const PageSizes: set<int> := {10, 20, 50, 100}

  /** `Math.floor(offset / limit) + 1`; for a positive limit Dafny's `/` is
      that floor. The page holds `offset`. */
  function PageNumber(offset: int, limit: int): (r: int)
    requires limit > 0
    ensures (r - 1) * limit <= offset < r * limit
    ensures offset >= 0 ==> r >= 1
  {
    offset / limit + 1
  }

  /** `Math.ceil(n / limit)` for a positive limit. */
  function CeilDiv(n: int, limit: int): (r: int)
    requires limit > 0
    ensures (r - 1) * limit < n <= r * limit
  {
    -((-n) / limit)
  }

  /** 1 for no rows, otherwise `Math.max(1, Math.ceil(count / limit))`:
      always at least one page, and exactly enough pages for `count` rows. */
  function TotalPages(count: int, limit: int): (r: int)
    requires limit > 0
    ensures r >= 1
    ensures count > 0 ==> (r - 1) * limit < count <= r * limit
  {
    if count == 0 then 1
    else
      var pages := CeilDiv(count, limit);
      if pages < 1 then 1 else pages
  }

  /** The page holding a listed row is one of the pages counted. */
  lemma PageWithinTotal(offset: int, limit: int, count: int)
    requires limit > 0 && 0 <= offset < count
    ensures 1 <= PageNumber(offset, limit) <= TotalPages(count, limit)
  {
    var p := PageNumber(offset, limit);
    var t := TotalPages(count, limit);
    if p > t {
      assert (p - 1) * limit >= t * limit by {
        assert p - 1 >= t;
        MulMonotone(t, p - 1, limit);
      }
      assert false;
    }
  }

  lemma MulMonotone(a: int, b: int, k: int)
    requires a <= b && k >= 0
    ensures a * k <= b * k
  {
  }

  /** On a page boundary inside the rows, Next is disabled exactly on the
      last page. */
  lemma NextDisabledOnLastPage(offset: int, limit: int, count: int)
    requires limit > 0 && 0 <= offset < count && offset % limit == 0
    ensures offset + limit >= count <==> PageNumber(offset, limit) == TotalPages(count, limit)
  {
    var q := offset / limit;
    assert offset == q * limit;
    var p := PageNumber(offset, limit);
    var t := TotalPages(count, limit);
    assert p == q + 1;
    PageWithinTotal(offset, limit, count);
    if offset + limit >= count {
      assert p * limit >= count;
      if p < t {
        MulMonotone(p, t - 1, limit);
        assert false;
      }
    } else {
      assert p * limit < count;
      if p == t {
        assert false;
      }
    }
  }

  /** The page's controls, as `buildParams` reads them. */
  datatype Controls = Controls(action: string, targetType: string, targetId: string,
                               since: string, until: string, sortBy: string, sortDir: string,
                               limit: int, offset: int)

  const ParamNames: set<string> :=
    {"limit", "offset", "sort_by", "sort_dir", "action", "target_type", "target_id", "since", "until"}

  /** `buildParams`: paging and sort always, each filter only when it is
      not empty. */
  function BuildParams(c: Controls): (r: map<string, QueryParam>)
    ensures r.Keys <= ParamNames
    ensures "limit" in r && r["limit"] == PNum(c.limit) && "offset" in r && r["offset"] == PNum(c.offset)
    ensures "sort_by" in r && r["sort_by"] == PStr(c.sortBy) && "sort_dir" in r && r["sort_dir"] == PStr(c.sortDir)
  {
    var base := map["limit" := PNum(c.limit), "offset" := PNum(c.offset),
                     "sort_by" := PStr(c.sortBy), "sort_dir" := PStr(c.sortDir)];
    var a := if c.action != "" then base["action" := PStr(c.action)] else base;
    var b := if c.targetType != "" then a["target_type" := PStr(c.targetType)] else a;
    var d := if c.targetId != "" then b["target_id" := PStr(c.targetId)] else b;
    var e := if c.since != "" then d["since" := PStr(c.since)] else d;
    if c.until != "" then e["until" := PStr(c.until)] else e
  }

  /** A filter parameter read back: its text, or empty where it was left out. */
  function TextParam(params: map<string, QueryParam>, key: string): string {
    if key in params && params[key].PStr? then params[key].s else ""
  }

  /** The five filters come back out of the parameters unchanged. */
  lemma FiltersRoundTrip(c: Controls)
    ensures var r := BuildParams(c);
            TextParam(r, "action") == c.action && TextParam(r, "target_type") == c.targetType
            && TextParam(r, "target_id") == c.targetId && TextParam(r, "since") == c.since
            && TextParam(r, "until") == c.until
  {
  }

  /** A filter is sent exactly when it is set. */
  lemma FiltersSentWhenSet(c: Controls)
    ensures var r := BuildParams(c);
            ("action" in r <==> c.action != "") && ("target_type" in r <==> c.targetType != "")
            && ("target_id" in r <==> c.targetId != "") && ("since" in r <==> c.since != "")
            && ("until" in r <==> c.until != "")
  {
  }

  /** The server pages exactly as the page asked: a page size from the
      select and a non-negative offset arrive as the listing's limit and
      offset. */
  lemma ServerPagesAsAsked(c: Controls)
    requires c.limit in PageSizes && c.offset >= 0
    ensures AdminAudit.PageLimit(Sent(BuildParams(c))) == c.limit
    ensures AdminAudit.PageOffset(Sent(BuildParams(c))) == c.offset
  {
    var params := BuildParams(c);
    NumberArrives(params, "limit", c.limit);
    NumberArrives(params, "offset", c.offset);
    PageSizeBounds(c.limit);
    LimitArrives(Sent(params), c.limit);
  }

  lemma PageSizeBounds(n: int)
    requires n in PageSizes
    ensures 10 <= n <= 100
  {
  }

  lemma LimitArrives(args: AdminAudit.Args, n: int)
    requires AdminAudit.IntArg(args, "limit") == Some(n) && 0 < n < AdminAudit.MaxLimit
    ensures AdminAudit.PageLimit(args) == n
  {
  }

  /** The server sorts as the page asked: the sort column and direction
      the selects hold arrive as the listing's order. */
  lemma ServerSortsAsAsked(c: Controls)
    requires c.sortBy != "" && c.sortDir != ""
    ensures AdminAudit.ReadOrder(Sent(BuildParams(c)))
            == Some(AdminAudit.Order(AdminAudit.SortKeyNamed(Lower(c.sortBy)), Lower(c.sortDir) == "asc"))
  {
    var args := Sent(BuildParams(c));
    assert args["sort_by"] == JStr(c.sortBy);
    assert args["sort_dir"] == JStr(c.sortDir);
  }

  /** A number parameter reads back on the server as that number. */
  lemma NumberArrives(params: map<string, QueryParam>, key: string, n: int)
    requires key in params && params[key] == PNum(n)
    ensures AdminAudit.IntArg(Sent(params), key) == Some(n)
  {
    var args := Sent(params);
    assert key in args && args[key] == JStr(IntToString(n));
    IntArgOfText(args, key, IntToString(n));
    PyIntOfIntToString(n);
  }

  lemma IntArgOfText(args: AdminAudit.Args, key: string, s: string)
    requires key in args && args[key] == JStr(s)
    ensures AdminAudit.IntArg(args, key) == PyInt(s)
  {
  }

  /** What a load got back: the response body, or an error response's body
      (missing when there was no response). */
  datatype LoadReply = Loaded(body: Json) | LoadFailed(errorBody: Option<Json>)

  /** `res.data?.count || 0`; a truthy count that is not an integer is read
      as 0 here. */
  function CountOf(body: Json): (r: int)
    ensures r != 0 ==> Field(body, "count") == Some(JInt(r))
  {
    match Field(body, "count")
    case Some(JInt(n)) => n
    case _ => 0
  }

  /** `e.response?.data?.message || fallback`, shown as text. */
  function ErrorText(errorBody: Option<Json>, fallback: string): string {
    var m := if errorBody.Some? then Field(errorBody.value, "message") else None;
    if JsTruthy(m) then JsText(m) else fallback
  }

  class AuditPage {
    var action: string
    var targetType: string
    var targetId: string
    var since: string
    var until: string
    var sortBy: string
    var sortDir: string
    var limit: int
    var offset: int
    var count: int
    var msg: string
    var loading: bool

    /** The paging state every handler keeps: a size from the select and
        an offset on a page boundary. */
    predicate Valid()
      reads this
    {
      limit in PageSizes && offset >= 0 && offset % limit == 0
    }

    function CurrentControls(): Controls
      reads this
    {
      Controls(action, targetType, targetId, since, until, sortBy, sortDir, limit, offset)
    }

    function Page(): (r: int)
      reads this
      requires Valid()
      ensures r >= 1
    {
      PageNumber(offset, limit)
    }

    constructor ()
      ensures Valid()
      ensures CurrentControls() == Controls("", "", "", "", "", "id", "desc", DefaultLimit, 0)
      ensures count == 0 && msg == "Loading..." && !loading
    {
      action, targetType, targetId, since, until := "", "", "", "", "";
      sortBy, sortDir := "id", "desc";
      limit, offset, count := DefaultLimit, 0, 0;
      msg, loading := "Loading...", false;
    }

    /** `applyPreset`: a new action filter, back to the first page. */
    method ApplyPreset(value: string)
      requires Valid()
      modifies this
      ensures Valid()
      ensures CurrentControls() == old(CurrentControls()).(action := value, offset := 0)
      ensures count == old(count) && msg == old(msg) && loading == old(loading)
    {
      action := value;
      offset := 0;
    }

    /** `clearFilters`: the five filters emptied, the sort and the page
        size kept, back to the first page. */
    method ClearFilters()
      requires Valid()
      modifies this
      ensures Valid()
      ensures CurrentControls() == old(CurrentControls()).(action := "", targetType := "", targetId := "",
                                                           since := "", until := "", offset := 0)
      ensures count == old(count) && msg == old(msg) && loading == old(loading)
    {
      action := "";
      targetType := "";
      targetId := "";
      since := "";
      until := "";
      offset := 0;
    }

    /** `setQuickRange`: the dates of the range's first and last day (read
        from the clock by the caller), back to the first page. */
    method SetQuickRange(startDate: string, endDate: string)
      requires Valid()
      modifies this
      ensures Valid()
      ensures CurrentControls() == old(CurrentControls()).(since := startDate, until := endDate, offset := 0)
      ensures count == old(count) && msg == old(msg) && loading == old(loading)
    {
      since := startDate;
      until := endDate;
      offset := 0;
    }

    /** `prevPage`: nothing on the first page, otherwise one page back. */
    method PrevPage()
      requires Valid()
      modifies this
      ensures Valid()
      ensures old(offset) == 0 ==> offset == 0
      ensures old(offset) > 0 ==> offset == old(offset) - limit && Page() == old(Page()) - 1
      ensures CurrentControls() == old(CurrentControls()).(offset := offset)
      ensures count == old(count) && msg == old(msg) && loading == old(loading)
    {
      if offset == 0 {
        return;
      }
      offset := if offset - limit < 0 then 0 else offset - limit;
      assert offset == old(offset) - limit;
      PageStep(offset, limit);
    }

    /** `nextPage`: nothing when this page reaches the count, otherwise one
        page on, which still starts inside the rows. */
    method NextPage()
      requires Valid()
      modifies this
      ensures Valid()
      ensures old(offset) + limit >= count ==> offset == old(offset)
      ensures old(offset) + limit < count ==>
                offset == old(offset) + limit && offset < count
                && Page() == old(Page()) + 1 <= TotalPages(count, limit)
      ensures CurrentControls() == old(CurrentControls()).(offset := offset)
      ensures count == old(count) && msg == old(msg) && loading == old(loading)
    {
      if offset + limit >= count {
        return;
      }
      PageStep(offset, limit);
      offset := offset + limit;
      PageWithinTotal(offset, limit, count);
    }

    /** `changeLimit`: a size from the select, back to the first page. */
    method ChangeLimit(newLimit: int)
      requires Valid() && newLimit in PageSizes
      modifies this
      ensures Valid()
      ensures CurrentControls() == old(CurrentControls()).(limit := newLimit, offset := 0)
      ensures count == old(count) && msg == old(msg) && loading == old(loading)
    {
      limit := newLimit;
      offset := 0;
    }

    /** `load` once its request is answered: the count of the listing, or
        0 and the error's message. */
    method Load(reply: LoadReply)
      modifies this
      ensures reply.Loaded? ==> count == CountOf(reply.body) && msg == ""
      ensures reply.LoadFailed? ==>
                count == 0 && msg == ErrorText(reply.errorBody, "Failed to load admin activity")
      ensures !loading
      ensures CurrentControls() == old(CurrentControls())
    {
      loading := true;
      msg := "Loading...";
      match reply {
        case Loaded(body) =>
          count := CountOf(body);
          msg := "";
        case LoadFailed(errorBody) =>
          count := 0;
          msg := ErrorText(errorBody, "Failed to load admin activity");
      }
      loading := false;
    }
  }

  /** One page on from a page boundary is the next page number. */
  lemma PageStep(offset: int, limit: int)
    requires limit > 0 && offset % limit == 0
    ensures (offset + limit) % limit == 0
    ensures PageNumber(offset + limit, limit) == PageNumber(offset, limit) + 1
  {
    var q := offset / limit;
    assert offset == q * limit;
    assert offset + limit == (q + 1) * limit;
    DivExact(q + 1, limit);
  }

  /** Dividing a multiple of `k` by `k` is exact. */
  lemma DivExact(q: int, k: int)
    requires k > 0
    ensures (q * k) / k == q && (q * k) % k == 0
  {
    var a := q * k;
    var d, m := a / k, a % k;
    assert a == d * k + m && 0 <= m < k;
    assert (q - d) * k == m;
    if q - d >= 1 {
      MulMonotone(1, q - d, k);
      assert false;
    } else if q - d <= -1 {
      MulMonotone(q - d, -1, k);
      assert false;
    }
  }
}
