/** The older admin activity page (`AdminActivity`): its filters, its
    paging by offset, how it reads the listing's total, and the text it
    shows for a chain verification. */
module AdminActivityPage {
  import opened Base
  import opened Json
  import Crypto
  import AdminChain
  import AdminAudit
  import AdminAuditPage

  const PageSize: int := 20

  predicate CanPrev(offset: int) {
    offset > 0
  }

  predicate CanNext(offset: int, limit: int, total: int) {
    offset + limit < total
  }

  // ---------------------------------------------------------------- query

  /** `m` with `k` set to `v` when `present`: how each optional entry of the
      `params` memo is added. */
  function AddIf(m: map<string, QueryParam>, present: bool, k: string, v: QueryParam): (r: map<string, QueryParam>)
    ensures r.Keys == m.Keys + (if present then {k} else {})
    ensures present ==> r[k] == v
    ensures forall j :: j in m && j != k ==> r[j] == m[j]
  {
    if present then m[k := v] else m
  }

  lemma KeysDistinct()
    ensures "limit" != "offset" && "limit" != "action" && "limit" != "since" && "limit" != "until"
    ensures "offset" != "action" && "offset" != "since" && "offset" != "until"
    ensures "action" != "since" && "action" != "until" && "since" != "until"
    ensures "from" != "limit" && "from" != "offset" && "to" != "limit" && "to" != "offset"
    ensures "from" != "since" && "from" != "until" && "to" != "since" && "to" != "until"
  {
    assert "limit"[0] != "offset"[0];
    assert "since"[0] != "until"[0] && "since"[0] != "limit"[0] && "until"[0] != "limit"[0];
    assert "action"[0] != "offset"[0];
  }

  /** The `params` memo as written: paging always, the trimmed action when
      it is not blank, and the dates under `from` and `to`. */
  function ParamsAsWritten(action: string, fromDate: string, toDate: string, limit: int, offset: int)
    : (r: map<string, QueryParam>)
    ensures "limit" in r && r["limit"] == PNum(limit) && "offset" in r && r["offset"] == PNum(offset)
    ensures "since" !in r && "until" !in r
  {
    KeysDistinct();
    var t := JsTrim(action);
    var base := map["limit" := PNum(limit), "offset" := PNum(offset)];
    assert base.Keys == {"limit", "offset"};
    var a := AddIf(base, t != "", "action", PStr(t));
    assert a["limit"] == PNum(limit) && a["offset"] == PNum(offset);
    assert "since" !in a && "until" !in a;
    var b := AddIf(a, fromDate != "", "from", PStr(fromDate));
    assert b["limit"] == PNum(limit) && b["offset"] == PNum(offset);
    assert "since" !in b && "until" !in b;
    AddIf(b, toDate != "", "to", PStr(toDate))
  }

  /** The listing reads its date range from `since` and `until`, so the
      dates this page sends under `from` and `to` never filter anything. */
  lemma DateRangeIgnoredAsWritten(parsers: AdminAudit.DateParsers, action: string, fromDate: string,
                                  toDate: string, limit: int, offset: int)
    requires AdminAudit.ReadFilters(parsers, Sent(ParamsAsWritten(action, fromDate, toDate, limit, offset))).Some?
    ensures var f := AdminAudit.ReadFilters(parsers, Sent(ParamsAsWritten(action, fromDate, toDate, limit, offset))).value;
            f.since.None? && f.until.None?
  {
    var args := Sent(ParamsAsWritten(action, fromDate, toDate, limit, offset));
    assert "since" !in args && "until" !in args;
  }

  /** The query with the date range under the names the listing reads. */
  function Params(action: string, fromDate: string, toDate: string, limit: int, offset: int)
    : (r: map<string, QueryParam>)
    ensures "limit" in r && r["limit"] == PNum(limit) && "offset" in r && r["offset"] == PNum(offset)
    ensures ("since" in r <==> fromDate != "") && ("until" in r <==> toDate != "")
    ensures fromDate != "" ==> r["since"] == PStr(fromDate)
    ensures toDate != "" ==> r["until"] == PStr(toDate)
    ensures "action" in r <==> JsTrim(action) != ""
    ensures "action" in r ==> r["action"] == PStr(JsTrim(action))
    ensures r.Keys == {"limit", "offset"} + (if JsTrim(action) != "" then {"action"} else {})
                      + (if fromDate != "" then {"since"} else {}) + (if toDate != "" then {"until"} else {})
  {
    KeysDistinct();
    var t := JsTrim(action);
    var base := map["limit" := PNum(limit), "offset" := PNum(offset)];
    assert base.Keys == {"limit", "offset"};
    var a := AddIf(base, t != "", "action", PStr(t));
    assert a["limit"] == PNum(limit) && a["offset"] == PNum(offset);
    assert "since" !in a && "until" !in a;
    var b := AddIf(a, fromDate != "", "since", PStr(fromDate));
    assert b["limit"] == PNum(limit) && b["offset"] == PNum(offset);
    assert ("action" in b <==> t != "") && (t != "" ==> b["action"] == PStr(t));
    assert "until" !in b;
    AddIf(b, toDate != "", "until", PStr(toDate))
  }

  /** With the corrected names, a chosen start date reaches the listing's
      filter as the date the server parses from it. */
  lemma DateRangeArrives(parsers: AdminAudit.DateParsers, action: string, fromDate: string,
                         toDate: string, limit: int, offset: int)
    requires fromDate != ""
    requires AdminAudit.ReadFilters(parsers, Sent(Params(action, fromDate, toDate, limit, offset))).Some?
    ensures AdminAudit.ReadFilters(parsers, Sent(Params(action, fromDate, toDate, limit, offset))).value.since
            == AdminAudit.ParseDt(parsers, Some(JStr(fromDate)))
  {
    var args := Sent(Params(action, fromDate, toDate, limit, offset));
    assert AdminAudit.Get(args, "since") == Some(JStr(fromDate));
  }

  // ---------------------------------------------------------------- total

  /** `(res.data.items || []).length`: an array's length, a string's
      length, 0 for anything else. */
  function ItemsLength(body: Json): nat {
    match Field(body, "items")
    case Some(JArr(xs)) => |xs|
    case Some(JStr(s)) => |s|
    case _ => 0
  }

  /** `v ?? fallback` for a number: a missing or null value gives the
      fallback; an integer gives itself. */
  function NumberOr(v: Option<Json>, fallback: int): int {
    match v
    case None => fallback
    case Some(JNull) => fallback
    case Some(JInt(n)) => n
    case Some(_) => 0
  }

  /** As written: `res.data.total ?? (res.data.items?.length || 0)`. */
  function TotalAsWritten(body: Json): int {
    NumberOr(Field(body, "total"), ItemsLength(body))
  }

  /** The listing's JSON page (which this page's query gets, by
      ListedAsAsked) calls its total `count`, so as written the page falls
      back to the number of items on the page, and Next is never enabled. */
  lemma NextNeverEnabledAsWritten(p: Crypto.Primitives, rows: seq<AdminChain.AdminRow>, limit: int, offset: int)
    requires limit in AdminAuditPage.PageSizes && offset >= 0
    ensures var page := AdminAudit.Page(rows, limit, offset);
            var body := AdminAudit.PageJson(p, page, |rows|, limit, offset);
            TotalAsWritten(body) == |page| <= limit && !CanNext(offset, limit, TotalAsWritten(body))
  {
    var page := AdminAudit.Page(rows, limit, offset);
    var body := AdminAudit.PageJson(p, page, |rows|, limit, offset);
    PageJsonFields(p, page, |rows|, limit, offset);
    assert TotalAsWritten(body) == |page|;
    AdminAuditPage.PageSizeBounds(limit);
  }

  /** `res.data.count ?? (res.data.items?.length || 0)`: the listing's
      own name for the number of all matching rows. */
  function TotalOf(body: Json): int {
    NumberOr(Field(body, "count"), ItemsLength(body))
  }

  /** Read under its own name, the total is the number of all matching
      rows, and Next is enabled exactly when rows remain after this page. */
  lemma NextEnabledIffMoreRows(p: Crypto.Primitives, rows: seq<AdminChain.AdminRow>, limit: int, offset: int)
    ensures var body := AdminAudit.PageJson(p, AdminAudit.Page(rows, limit, offset), |rows|, limit, offset);
            TotalOf(body) == |rows| && (CanNext(offset, limit, TotalOf(body)) <==> offset + limit < |rows|)
  {
    PageJsonFields(p, AdminAudit.Page(rows, limit, offset), |rows|, limit, offset);
  }

  /** This page's query gets one JSON page of the listing, cut at its own
      limit and offset. */
  lemma ListedAsAsked(p: Crypto.Primitives, rows: seq<AdminChain.AdminRow>,
                      action: string, limit: int, offset: int)
    requires limit in AdminAuditPage.PageSizes && offset >= 0
    ensures AdminAudit.Respond(p, Sent(Params(action, "", "", limit, offset)), rows)
            == AdminAudit.JsonBody(AdminAudit.PageJson(p, AdminAudit.Page(rows, limit, offset), |rows|, limit, offset))
  {
    ServerPagesAsAsked(action, limit, offset);
    NoFormatSent(action, limit, offset);
    JsonListing(p, rows, Sent(Params(action, "", "", limit, offset)), limit, offset);
  }

  /** The page never asks for the CSV export. */
  lemma NoFormatSent(action: string, limit: int, offset: int)
    ensures "format" !in Sent(Params(action, "", "", limit, offset))
  {
    var params := Params(action, "", "", limit, offset);
    assert "format"[0] != "limit"[0] && "format"[0] != "offset"[0] && "format"[0] != "action"[0];
    assert "format"[0] != "since"[0] && "format"[0] != "until"[0];
    assert "format" !in params;
  }

  lemma JsonListing(p: Crypto.Primitives, rows: seq<AdminChain.AdminRow>, args: AdminAudit.Args,
                    limit: int, offset: int)
    requires "format" !in args
    requires AdminAudit.PageLimit(args) == limit && AdminAudit.PageOffset(args) == offset
    ensures AdminAudit.Respond(p, args, rows)
            == AdminAudit.JsonBody(AdminAudit.PageJson(p, AdminAudit.Page(rows, limit, offset), |rows|, limit, offset))
  {
    FormatIsJson(args);
  }

  /** What the client reads off the listing's JSON page. */
  lemma PageJsonFields(p: Crypto.Primitives, page: seq<AdminChain.AdminRow>, count: nat, limit: int, offset: int)
    ensures var body := AdminAudit.PageJson(p, page, count, limit, offset);
            Field(body, "total") == None && Field(body, "count") == Some(JInt(count))
            && ItemsLength(body) == |page|
  {
    var m := AdminAudit.PageJson(p, page, count, limit, offset).fields;
    assert "total"[0] != "items"[0] && "total"[0] != "count"[0];
    assert "total"[0] != "limit"[0] && "total"[0] != "offset"[0];
    assert "total" !in m;
    assert m["count"] == JInt(count);
    assert m["items"] == JArr(AdminAudit.Dicts(p, page));
  }

  /** The page's limit and offset arrive as the listing's. */
  lemma ServerPagesAsAsked(action: string, limit: int, offset: int)
    requires limit in AdminAuditPage.PageSizes && offset >= 0
    ensures AdminAudit.PageLimit(Sent(Params(action, "", "", limit, offset))) == limit
    ensures AdminAudit.PageOffset(Sent(Params(action, "", "", limit, offset))) == offset
  {
    var params := Params(action, "", "", limit, offset);
    AdminAuditPage.NumberArrives(params, "limit", limit);
    AdminAuditPage.NumberArrives(params, "offset", offset);
    AdminAuditPage.PageSizeBounds(limit);
    AdminAuditPage.LimitArrives(Sent(params), limit);
  }

  /** Without a `format` the listing answers with a JSON page. */
  lemma FormatIsJson(args: AdminAudit.Args)
    requires "format" !in args
    ensures AdminAudit.TextOr(args, "format", "") == Some("")
    ensures Lower("") != "csv"
  {
  }

  // ------------------------------------------------------- chain verify

  /** What `verifyChain` shows. */
  datatype VerifyResult = VerifyResult(ok: bool, detail: string)

  /** The verification request's answer: a response body, or an error
      response's body (missing when there was no response). */
  datatype ChainAnswer = ChainAnswered(data: Json) | ChainFailed(errorBody: Option<Json>)

  function BreakText(data: Json): string {
    "Break at id=" + JsText(Field(data, "id")) + ": " + JsText(Field(data, "reason"))
  }

  /** The result `verifyChain` sets. A null response body throws inside
      the `try` and lands in the `catch` with no response. */
  function ChainResult(answer: ChainAnswer): VerifyResult {
    match answer
    case ChainAnswered(data) =>
      if data.JNull? then FailedResult(EmptyObject)
      else if JsTruthy(Field(data, "ok")) then VerifyResult(true, "Events checked: " + JsText(Field(data, "count")))
      else if JsTruthy(Field(data, "reason")) then VerifyResult(false, BreakText(data))
      else VerifyResult(false, "Mismatch")
    case ChainFailed(errorBody) =>
      FailedResult(if JsTruthy(errorBody) then errorBody.value else EmptyObject)
  }

  /** The `catch` branch, from `err.response?.data || {}`. */
  function FailedResult(data: Json): VerifyResult {
    if JsTruthy(Field(data, "reason")) then VerifyResult(false, BreakText(data))
    else
      var m := Field(data, "message");
      VerifyResult(false, if JsTruthy(m) then JsText(m) else "Verification failed")
  }

  /** The result is a success exactly when a response body says `ok`, and
      a named break is reported with its row id and reason. */
  lemma ChainResultOk(answer: ChainAnswer)
    ensures ChainResult(answer).ok <==>
              answer.ChainAnswered? && !answer.data.JNull? && JsTruthy(Field(answer.data, "ok"))
    ensures answer.ChainAnswered? && !answer.data.JNull? && !JsTruthy(Field(answer.data, "ok"))
            && JsTruthy(Field(answer.data, "reason")) ==>
              ChainResult(answer).detail == BreakText(answer.data)
  {
  }

  /** The listing no longer serves a verification route: an error page
      (text, not JSON) or no response at all shows "Verification failed". */
  lemma RemovedRouteFails(answer: ChainAnswer)
    requires answer.ChainFailed?
    requires answer.errorBody.None? || answer.errorBody.value.JStr?
    ensures ChainResult(answer) == VerifyResult(false, "Verification failed")
  {
  }

  // ----------------------------------------------------------------- page

  /** `res.data.items || []`, as rows: an array's items, none otherwise. */
  function RowsOf(body: Json): seq<Json> {
    match Field(body, "items")
    case Some(JArr(xs)) => xs
    case _ => []
  }

  class ActivityPage {
    var action: string
    var fromDate: string
    var toDate: string
    var offset: int
    var limit: int
    var total: int
    var rows: seq<Json>
    var msg: string
    var loading: bool
    var verifying: bool
    var verifyResult: Option<VerifyResult>

    predicate Valid()
      reads this
    {
      limit in AdminAuditPage.PageSizes && offset >= 0
    }

    /** The query the page sends now. */
    function Query(): map<string, QueryParam>
      reads this
    {
      Params(action, fromDate, toDate, limit, offset)
    }

    constructor ()
      ensures Valid()
      ensures action == "" && fromDate == "" && toDate == ""
      ensures offset == 0 && limit == PageSize && total == 0 && rows == []
      ensures msg == "Loading..." && !loading && !verifying && verifyResult.None?
    {
      action, fromDate, toDate := "", "", "";
      offset, limit, total, rows := 0, PageSize, 0, [];
      msg, loading, verifying, verifyResult := "Loading...", false, false, None;
    }

    /** The Prev button (enabled only when `canPrev`). */
    method Prev()
      requires Valid() && CanPrev(offset)
      modifies this
      ensures Valid()
      ensures offset == if old(offset) - limit < 0 then 0 else old(offset) - limit
      ensures offset < old(offset)
      ensures action == old(action) && fromDate == old(fromDate) && toDate == old(toDate)
      ensures limit == old(limit) && total == old(total)
    {
      offset := if offset - limit < 0 then 0 else offset - limit;
    }

    /** The Next button (enabled only when `canNext`): the next page still
        starts inside the total. */
    method Next()
      requires Valid() && CanNext(offset, limit, total)
      modifies this
      ensures Valid()
      ensures offset == old(offset) + limit && old(offset) < offset < total
      ensures action == old(action) && fromDate == old(fromDate) && toDate == old(toDate)
      ensures limit == old(limit) && total == old(total)
    {
      offset := offset + limit;
    }

    /** The page-size select: back to the first page, then the new size. */
    method ChangeLimit(newLimit: int)
      requires newLimit in AdminAuditPage.PageSizes
      modifies this
      ensures Valid()
      ensures offset == 0 && limit == newLimit && !CanPrev(offset)
      ensures action == old(action) && fromDate == old(fromDate) && toDate == old(toDate)
      ensures total == old(total)
    {
      offset := 0;
      limit := newLimit;
    }

    /** `applyFilters`: back to the first page (the load follows). */
    method ApplyFilters()
      requires Valid()
      modifies this
      ensures Valid()
      ensures offset == 0
      ensures action == old(action) && fromDate == old(fromDate) && toDate == old(toDate)
      ensures limit == old(limit) && total == old(total)
    {
      offset := 0;
    }

    /** `clearFilters`: no filters, first page; only paging is sent. */
    method ClearFilters()
      requires Valid()
      modifies this
      ensures Valid()
      ensures action == "" && fromDate == "" && toDate == "" && offset == 0
      ensures limit == old(limit) && total == old(total)
    {
      action := "";
      fromDate := "";
      toDate := "";
      offset := 0;
    }

    /** `load` once its request is answered. A failure keeps the old
        total; a null body fails inside the `try` with no response. */
    method Load(reply: AdminAuditPage.LoadReply)
      modifies this
      ensures reply.Loaded? && !reply.body.JNull? ==>
                rows == RowsOf(reply.body) && total == TotalOf(reply.body)
                && msg == (if ItemsLength(reply.body) == 0 && NumberOr(Field(reply.body, "count"), 0) == 0
                           then "No admin activity found." else "")
      ensures reply.Loaded? && reply.body.JNull? ==>
                rows == [] && total == old(total) && msg == "Failed to load admin activity"
      ensures reply.LoadFailed? ==>
                rows == [] && total == old(total) && msg == AdminAuditPage.ErrorText(reply.errorBody, "Failed to load admin activity")
      ensures !loading
      ensures action == old(action) && fromDate == old(fromDate) && toDate == old(toDate)
      ensures offset == old(offset) && limit == old(limit)
    {
      loading := true;
      msg := "";
      match reply {
        case Loaded(body) =>
          if body.JNull? {
            rows := [];
            msg := "Failed to load admin activity";
          } else {
            rows := RowsOf(body);
            total := TotalOf(body);
            if ItemsLength(body) == 0 && NumberOr(Field(body, "count"), 0) == 0 {
              msg := "No admin activity found.";
            }
          }
        case LoadFailed(errorBody) =>
          rows := [];
          msg := AdminAuditPage.ErrorText(errorBody, "Failed to load admin activity");
      }
      loading := false;
    }

    /** `verifyChain` once its request is answered. */
    method VerifyChain(answer: ChainAnswer)
      modifies this
      ensures verifyResult == Some(ChainResult(answer)) && !verifying
      ensures action == old(action) && fromDate == old(fromDate) && toDate == old(toDate)
      ensures offset == old(offset) && limit == old(limit) && total == old(total)
    {
      verifying := true;
      verifyResult := None;
      verifyResult := Some(ChainResult(answer));
      verifying := false;
    }
  }

  /** With no filters only the paging is sent. */
  lemma ClearedQuery(limit: int, offset: int)
    ensures Params("", "", "", limit, offset).Keys == {"limit", "offset"}
  {
    assert JsTrim("") == "";
    assert {"limit", "offset"} + {} + {} + {} == {"limit", "offset"};
  }
}
