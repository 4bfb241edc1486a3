/** The admin audit API (`/admin/activity` and `/admin/activity/export`):
    which `admin_activity_log` rows an admin sees, how they are filtered,
    sorted and paged, and the two shapes they are exported in (CSV records and
    JSON objects). The table is the sequence of rows in ascending id order. */
module AdminAudit {
  import opened Base
  import opened Json
  import opened Crypto
  import opened AdminChain
  import AuthServer

  // ------------------------------------------------------------ arguments

  /** A request's arguments as `args.get(key)` sees them: the first value of
      each key. Query-string values are text; the export endpoint copies JSON
      values of any type in. */
  type Args = map<string, Json>

  function Get(args: Args, key: string): Option<Json> {
    if key in args then Some(args[key]) else None
  }

  /** `(args.get(key) or default)` where a string method is applied next:
      None where the value is truthy but not text (AttributeError). */
  function TextOr(args: Args, key: string, default: string): Option<string> {
    if key !in args || Falsy(args[key]) then Some(default)
    else if args[key].JStr? then Some(args[key].s)
    else None
  }

  /** `args.get(key, type=int)`: None where the key is missing or `int(value)`
      raises ValueError or TypeError. */
  function IntArg(args: Args, key: string): Option<int> {
    if key !in args then None
    else match args[key]
      case JStr(s) => PyInt(s)
      case JInt(i) => Some(i)
      case JBool(b) => Some(if b then 1 else 0)
      case _ => None
  }

  /** The parsers `_parse_dt` calls, giving instants in microseconds and None
      where they raise. */
  datatype DateParsers = DateParsers(
    /** `datetime.strptime(s, "%Y-%m-%d")` */
    date: string -> Option<int>,
    /** `datetime.fromisoformat(s)` */
    iso: string -> Option<int>)

  /** `_parse_dt`: a blank value is no bound, ten characters are a date, any
      other text is ISO 8601 with every 'Z' removed, and every failure
      (a value that is not text included) is no bound. */
  function ParseDt(parsers: DateParsers, v: Option<Json>): (r: Option<int>)
    ensures v.None? || Falsy(v.value) || !v.value.JStr? ==> r.None?
  {
    if v.None? || Falsy(v.value) || !v.value.JStr? then None
    else if |v.value.s| == 10 then parsers.date(v.value.s)
    else parsers.iso(ReplaceChar(v.value.s, 'Z', ""))
  }

  /** A trailing 'Z' (UTC designator) is ignored: "...T10:00:00Z" bounds like
      "...T10:00:00". */
  lemma ParseDtIgnoresZulu(parsers: DateParsers, s: string)
    requires s != "" && 'Z' !in s && |s| != 9 && |s| != 10
    ensures ParseDt(parsers, Some(JStr(s + "Z"))) == ParseDt(parsers, Some(JStr(s))) == parsers.iso(s)
  {
    ReplaceCharAppend(s, "Z", 'Z', "");
    ReplaceCharAbsent(s, 'Z', "");
    assert ReplaceChar("Z", 'Z', "") == "";
    assert s + "" == s;
  }

  // ---------------------------------------------------------------- scope

  datatype Scope = NoAdmin | OneAdmin(adminId: int)

  /** Whose rows `_build_query` keeps: the admin the `email` argument names
      (nobody's when no user has that email), else a non-zero `admin_id`,
      else the caller's. None where `email` is not text. */
  function ReadScope(users: seq<AuthServer.User>, currentAdmin: int, args: Args): Option<Scope> {
    match TextOr(args, "email", "")
    case None => None
    case Some(e) =>
      var email := Lower(PyStrip(e));
      var adminId := IntArg(args, "admin_id");
      if email != "" then
        match AuthServer.FindUserByEmail(users, email)
        case None => Some(NoAdmin)
        case Some(i) => Some(OneAdmin(users[i].id))
      else if adminId.Some? && adminId.value != 0 then Some(OneAdmin(adminId.value))
      else Some(OneAdmin(currentAdmin))
  }

  /** A non-blank email wins over `admin_id`: the scope is the user with that
      email, case-insensitively, or nobody. */
  lemma EmailTakesPrecedence(users: seq<AuthServer.User>, currentAdmin: int, args: Args, e: string)
    requires "email" in args && args["email"] == JStr(e) && Lower(PyStrip(e)) != ""
    ensures var found := AuthServer.FindUserByEmail(users, Lower(PyStrip(e)));
            ReadScope(users, currentAdmin, args)
              == Some(if found.None? then NoAdmin else OneAdmin(users[found.value].id))
  {
    NormalisedNonBlank(e);
  }

  /** Text that normalises to a non-blank email is itself non-blank. */
  lemma NormalisedNonBlank(e: string)
    requires Lower(PyStrip(e)) != ""
    ensures e != ""
  {
    assert |Lower(PyStrip(e))| == |PyStrip(e)| <= |e|;
  }

  /** Without an email, a non-zero `admin_id` selects that admin and anything
      else (missing, zero, not a number) selects the caller. */
  lemma AdminIdOrCaller(users: seq<AuthServer.User>, currentAdmin: int, args: Args)
    requires "email" !in args
    ensures var a := IntArg(args, "admin_id");
            ReadScope(users, currentAdmin, args)
              == Some(OneAdmin(if a.Some? && a.value != 0 then a.value else currentAdmin))
  {
    assert Lower(PyStrip("")) == "";
  }

  // -------------------------------------------------------------- filters

  /** The optional filters, stripped; blank text means no filter. */
  datatype Filters = Filters(action: string, targetType: string, targetId: string,
                             since: Option<int>, until: Option<int>)

  const NoFilters: Filters := Filters("", "", "", None, None)

  /** The filters `_build_query` reads; None where one of the text filters is
      not text. */
  function ReadFilters(parsers: DateParsers, args: Args): Option<Filters> {
    var action := TextOr(args, "action", "");
    var targetType := TextOr(args, "target_type", "");
    var targetId := TextOr(args, "target_id", "");
    if action.None? || targetType.None? || targetId.None? then None
    else Some(Filters(PyStrip(action.value), PyStrip(targetType.value), PyStrip(targetId.value),
                      ParseDt(parsers, Get(args, "since")), ParseDt(parsers, Get(args, "until"))))
  }

  /** A row passes the filters: the action contains the text case-insensitively
      (`ilike '%text%'`), the target columns equal the text (a NULL column
      never does), and the timestamp lies within the inclusive bounds. */
  predicate Matches(f: Filters, r: AdminRow) {
    (f.action == "" || Contains(Lower(r.action), Lower(f.action)))
    && (f.targetType == "" || r.targetType == Some(f.targetType))
    && (f.targetId == "" || r.targetId == Some(f.targetId))
    && (f.since.None? || f.since.value <= r.ts)
    && (f.until.None? || r.ts <= f.until.value)
  }

  /** Blank filters keep every row. */
  lemma NoFiltersMatchAll(r: AdminRow)
    ensures Matches(NoFilters, r)
  {
  }

  /** An action filter keeps exactly the rows whose action contains it,
      ignoring case. */
  lemma ActionFilterIgnoresCase(f: Filters, r: AdminRow)
    requires f.action != "" && f.targetType == "" && f.targetId == "" && f.since.None? && f.until.None?
    ensures Matches(f, r) <==> Contains(Lower(r.action), Lower(f.action))
    ensures Matches(f, r) <==> Matches(f.(action := Lower(f.action)), r)
  {
    assert Lower(Lower(f.action)) == Lower(f.action);
  }

  // ---------------------------------------------------------------- order

  datatype SortKey = ById | ByTs | ByAction | ByTargetType | ByTargetId

  datatype Order = Order(key: SortKey, ascending: bool)

  /** `column_map.get(sort_by, AdminActivityLog.id)`. */
  function SortKeyNamed(name: string): SortKey {
    if name == "ts" then ByTs
    else if name == "action" then ByAction
    else if name == "target_type" then ByTargetType
    else if name == "target_id" then ByTargetId
    else ById
  }

  /** The sort column and direction; None where `sort_by` or `sort_dir` is not text. */
  function ReadOrder(args: Args): Option<Order> {
    var sortBy := TextOr(args, "sort_by", "id");
    var sortDir := TextOr(args, "sort_dir", "desc");
    if sortBy.None? || sortDir.None? then None
    else Some(Order(SortKeyNamed(Lower(sortBy.value)), Lower(sortDir.value) == "asc"))
  }

  /** By default rows come newest id first, and an unknown column sorts by id. */
  lemma DefaultOrder(args: Args)
    requires "sort_by" !in args && "sort_dir" !in args
    ensures ReadOrder(args) == Some(Order(ById, false))
  {
    assert Lower("id") == "id";
  }

  lemma UnknownColumnSortsById(name: string)
    requires name !in {"ts", "action", "target_type", "target_id"}
    ensures SortKeyNamed(name) == ById
  {
  }

  // ------------------------------------------------------------ selection

  /** What `_build_query` makes of the arguments: whose rows, which filters and
      which order (none when the email names nobody: that query returns early). */
  datatype Selection = Selection(scope: Scope, filters: Filters, order: Option<Order>)

  /** The selection the arguments ask for; None where `_build_query` raises. */
  function ReadSelection(parsers: DateParsers, users: seq<AuthServer.User>, currentAdmin: int,
                         args: Args): Option<Selection>
  {
    match ReadScope(users, currentAdmin, args)
    case None => None
    case Some(NoAdmin) => Some(Selection(NoAdmin, NoFilters, None))
    case Some(OneAdmin(a)) =>
      var f := ReadFilters(parsers, args);
      var o := ReadOrder(args);
      if f.None? || o.None? then None else Some(Selection(OneAdmin(a), f.value, o))
  }

  predicate Wanted(s: Selection, r: AdminRow) {
    s.scope == OneAdmin(r.adminId) && Matches(s.filters, r)
  }

  /** With no arguments an admin sees their own rows, unfiltered, newest id
      first. */
  lemma DefaultSelection(parsers: DateParsers, users: seq<AuthServer.User>, currentAdmin: int)
    ensures ReadSelection(parsers, users, currentAdmin, map[])
         == Some(Selection(OneAdmin(currentAdmin), NoFilters, Some(Order(ById, false))))
  {
    var empty: Args := map[];
    assert IntArg(empty, "admin_id") == None;
    AdminIdOrCaller(users, currentAdmin, empty);
    DefaultOrder(empty);
    NoArgumentsNoFilters(parsers);
  }

  lemma NoArgumentsNoFilters(parsers: DateParsers)
    ensures ReadFilters(parsers, map[]) == Some(NoFilters)
  {
    var empty: Args := map[];
    assert TextOr(empty, "action", "") == Some("");
    assert TextOr(empty, "target_type", "") == Some("");
    assert TextOr(empty, "target_id", "") == Some("");
    assert PyStrip("") == "";
  }

  /** With an email no user has, the query selects nothing and reads no other
      argument, so even values that would raise are ignored. */
  lemma UnknownEmailSelectsNothing(parsers: DateParsers, users: seq<AuthServer.User>, currentAdmin: int,
                                   args: Args, e: string, r: AdminRow)
    requires "email" in args && args["email"] == JStr(e) && Lower(PyStrip(e)) != ""
    requires AuthServer.FindUserByEmail(users, Lower(PyStrip(e))).None?
    ensures ReadSelection(parsers, users, currentAdmin, args).Some?
    ensures !Wanted(ReadSelection(parsers, users, currentAdmin, args).value, r)
  {
    EmailTakesPrecedence(users, currentAdmin, args, e);
  }

  // ------------------------------------------------------------- the query

  /** One `filter(...)` of the query. */
  datatype Condition =
    | Never                       // `1=0`
    | AdminIs(adminId: int)
    | ActionLike(text: string)    // `action ilike '%text%'`
    | TargetTypeIs(targetType: string)
    | TargetIdIs(targetId: string)
    | NotBefore(since: int)
    | NotAfter(until: int)

  predicate Holds(c: Condition, r: AdminRow) {
    match c
    case Never => false
    case AdminIs(a) => r.adminId == a
    case ActionLike(t) => Contains(Lower(r.action), Lower(t))
    case TargetTypeIs(t) => r.targetType == Some(t)
    case TargetIdIs(t) => r.targetId == Some(t)
    case NotBefore(t) => t <= r.ts
    case NotAfter(t) => r.ts <= t
  }

  predicate AllHold(cs: seq<Condition>, r: AdminRow) {
    forall i :: 0 <= i < |cs| ==> Holds(cs[i], r)
  }

  lemma AllHoldSnoc(cs: seq<Condition>, c: Condition, r: AdminRow)
    ensures AllHold(cs + [c], r) <==> AllHold(cs, r) && Holds(c, r)
  {
    assert (cs + [c])[|cs|] == c;
    assert forall i :: 0 <= i < |cs| ==> (cs + [c])[i] == cs[i];
  }

  datatype Query = Query(conditions: seq<Condition>, order: Option<Order>)

  datatype Built = Built(query: Query) | Raised(exception: string)

  /** `_build_query`: reads the arguments and narrows the query one filter at
      a time. */
  method BuildQuery(parsers: DateParsers, users: seq<AuthServer.User>, currentAdmin: int, args: Args)
    returns (b: Built)
    ensures match ReadSelection(parsers, users, currentAdmin, args)
            case None => b == Raised("AttributeError")
            case Some(s) => b.Built? && b.query.order == s.order
                            && forall r :: AllHold(b.query.conditions, r) <==> Wanted(s, r)
  {
    var scope := ReadScope(users, currentAdmin, args);
    if scope.None? {
      return Raised("AttributeError");
    }
    var conditions: seq<Condition> := [];
    if scope.value.NoAdmin? {
      conditions := conditions + [Never];
      forall r { AllHoldSnoc([], Never, r); }
      return Built(Query(conditions, None));
    }
    forall r { AllHoldSnoc([], AdminIs(scope.value.adminId), r); }
    conditions := conditions + [AdminIs(scope.value.adminId)];
    var filters := ReadFilters(parsers, args);
    if filters.None? {
      return Raised("AttributeError");
    }
    conditions := AddFilters(conditions, filters.value);
    var order := ReadOrder(args);
    if order.None? {
      return Raised("AttributeError");
    }
    b := Built(Query(conditions, order));
  }

  /** The filter half of `_build_query`: one condition per non-blank filter. */
  method AddFilters(q: seq<Condition>, f: Filters) returns (conditions: seq<Condition>)
    ensures forall r :: AllHold(conditions, r) <==> AllHold(q, r) && Matches(f, r)
  {
    conditions := q;
    if f.action != "" {
      forall r { AllHoldSnoc(conditions, ActionLike(f.action), r); }
      conditions := conditions + [ActionLike(f.action)];
    }
    if f.targetType != "" {
      forall r { AllHoldSnoc(conditions, TargetTypeIs(f.targetType), r); }
      conditions := conditions + [TargetTypeIs(f.targetType)];
    }
    if f.targetId != "" {
      forall r { AllHoldSnoc(conditions, TargetIdIs(f.targetId), r); }
      conditions := conditions + [TargetIdIs(f.targetId)];
    }
    if f.since.Some? {
      forall r { AllHoldSnoc(conditions, NotBefore(f.since.value), r); }
      conditions := conditions + [NotBefore(f.since.value)];
    }
    if f.until.Some? {
      forall r { AllHoldSnoc(conditions, NotAfter(f.until.value), r); }
      conditions := conditions + [NotAfter(f.until.value)];
    }
  }

  // ------------------------------------------------------------- filtering

  /** The rows of `rows` that `keep` accepts, in their table order. */
  function Filter(keep: AdminRow -> bool, rows: seq<AdminRow>): (r: seq<AdminRow>)
    ensures |r| <= |rows|
    ensures forall x :: x in r <==> x in rows && keep(x)
  {
    if rows == [] then []
    else Filter(keep, rows[..|rows| - 1]) + (if keep(rows[|rows| - 1]) then [rows[|rows| - 1]] else [])
  }

  lemma {:induction false} FilterAgrees(k1: AdminRow -> bool, k2: AdminRow -> bool, rows: seq<AdminRow>)
    requires forall x :: k1(x) == k2(x)
    ensures Filter(k1, rows) == Filter(k2, rows)
  {
    if rows != [] {
      FilterAgrees(k1, k2, rows[..|rows| - 1]);
    }
  }

  /** Ids increase along the sequence. */
  predicate IdsAscending(rows: seq<AdminRow>) {
    forall i, j :: 0 <= i < j < |rows| ==> rows[i].id < rows[j].id
  }

  lemma IdsInOrderAscending(rows: seq<AdminRow>)
    requires IdsInOrder(rows)
    ensures IdsAscending(rows)
  {
  }

  /** Filtering keeps the rows' relative order. */
  lemma {:induction false} FilterKeepsIdOrder(keep: AdminRow -> bool, rows: seq<AdminRow>)
    requires IdsAscending(rows)
    ensures IdsAscending(Filter(keep, rows))
  {
    if rows != [] {
      var init := rows[..|rows| - 1];
      FilterKeepsIdOrder(keep, init);
      var r := Filter(keep, rows);
      if keep(rows[|rows| - 1]) {
        forall i | 0 <= i < |r| - 1
          ensures r[i].id < rows[|rows| - 1].id
        {
          assert r[i] in Filter(keep, init);
          var k :| 0 <= k < |init| && init[k] == r[i];
        }
      }
    }
  }

  // --------------------------------------------------------------- sorting

  /** A column value under SQLite's ordering of storage classes. */
  datatype Value = Null | Num(n: int) | Text(s: string)

  function Column(key: SortKey, r: AdminRow): Value {
    match key
    case ById => Num(r.id)
    case ByTs => Num(r.ts)
    case ByAction => Text(r.action)
    case ByTargetType => if r.targetType.None? then Null else Text(r.targetType.value)
    case ByTargetId => if r.targetId.None? then Null else Text(r.targetId.value)
  }

  /** The BINARY collation: character by character, a proper prefix first. */
  predicate TextLeq(a: string, b: string)
    decreases |a|
  {
    a == [] || (b != [] && (a[0] < b[0] || (a[0] == b[0] && TextLeq(a[1..], b[1..]))))
  }

  lemma {:induction false} TextLeqTotal(a: string, b: string)
    ensures TextLeq(a, b) || TextLeq(b, a)
    decreases |a|
  {
    if a != [] && b != [] && a[0] == b[0] {
      TextLeqTotal(a[1..], b[1..]);
    }
  }

  lemma {:induction false} TextLeqTrans(a: string, b: string, c: string)
    requires TextLeq(a, b) && TextLeq(b, c)
    ensures TextLeq(a, c)
    decreases |a|
  {
    if a != [] && a[0] == b[0] && b[0] == c[0] {
      TextLeqTrans(a[1..], b[1..], c[1..]);
    }
  }

  /** SQLite's order of values: NULL first, then numbers, then text. */
  predicate ValueLeq(x: Value, y: Value) {
    match x
    case Null => true
    case Num(m) => y.Text? || (y.Num? && m <= y.n)
    case Text(t) => y.Text? && TextLeq(t, y.s)
  }

  lemma ValueLeqTotal(x: Value, y: Value)
    ensures ValueLeq(x, y) || ValueLeq(y, x)
  {
    if x.Text? && y.Text? {
      TextLeqTotal(x.s, y.s);
    }
  }

  lemma ValueLeqTrans(x: Value, y: Value, z: Value)
    requires ValueLeq(x, y) && ValueLeq(y, z)
    ensures ValueLeq(x, z)
  {
    if x.Text? {
      TextLeqTrans(x.s, y.s, z.s);
    }
  }

  /** `x` may come before `y` under `order_by(col.asc())` / `col.desc()`. */
  predicate Before(o: Order, x: AdminRow, y: AdminRow) {
    if o.ascending then ValueLeq(Column(o.key, x), Column(o.key, y))
    else ValueLeq(Column(o.key, y), Column(o.key, x))
  }

  lemma BeforeTotal(o: Order, x: AdminRow, y: AdminRow)
    ensures Before(o, x, y) || Before(o, y, x)
  {
    ValueLeqTotal(Column(o.key, x), Column(o.key, y));
  }

  lemma BeforeTrans(o: Order, x: AdminRow, y: AdminRow, z: AdminRow)
    requires Before(o, x, y) && Before(o, y, z)
    ensures Before(o, x, z)
  {
    if o.ascending {
      ValueLeqTrans(Column(o.key, x), Column(o.key, y), Column(o.key, z));
    } else {
      ValueLeqTrans(Column(o.key, z), Column(o.key, y), Column(o.key, x));
    }
  }

  predicate SortedBy(o: Order, rows: seq<AdminRow>) {
    forall i, j :: 0 <= i < j < |rows| ==> Before(o, rows[i], rows[j])
  }

  /** Rows that tie on the sort column keep ascending id order. */
  predicate TiesById(o: Order, rows: seq<AdminRow>) {
    forall i, j :: 0 <= i < j < |rows| && Before(o, rows[j], rows[i]) ==> rows[i].id < rows[j].id
  }

  /** Places `x` after every row it does not come strictly before. */
  function Insert(o: Order, s: seq<AdminRow>, x: AdminRow): (r: seq<AdminRow>)
    ensures multiset(r) == multiset(s) + multiset{x}
  {
    if s == [] || Before(o, s[|s| - 1], x) then s + [x]
    else
      assert s == s[..|s| - 1] + [s[|s| - 1]];
      Insert(o, s[..|s| - 1], x) + [s[|s| - 1]]
  }

  /** The rows in the order `order_by` gives them, ties in their table order. */
  function SortRows(o: Order, rows: seq<AdminRow>): (r: seq<AdminRow>)
    ensures multiset(r) == multiset(rows)
  {
    if rows == [] then []
    else
      assert rows == rows[..|rows| - 1] + [rows[|rows| - 1]];
      Insert(o, SortRows(o, rows[..|rows| - 1]), rows[|rows| - 1])
  }

  /** A row of `Insert(o, s, x)` is `x` or a row of `s`. */
  lemma InsertFrom(o: Order, s: seq<AdminRow>, x: AdminRow, e: AdminRow)
    requires e in Insert(o, s, x)
    ensures e == x || e in s
  {
    assert e in multiset(Insert(o, s, x));
  }

  /** When `x` does not go after the last row, everything inserted in
      front of that row comes before it. */
  lemma FrontBeforeLast(o: Order, init: seq<AdminRow>, last: AdminRow, x: AdminRow)
    requires SortedBy(o, init + [last]) && !Before(o, last, x)
    ensures forall e :: e in Insert(o, init, x) ==> Before(o, e, last)
  {
    var s := init + [last];
    BeforeTotal(o, last, x);
    forall e | e in Insert(o, init, x)
      ensures Before(o, e, last)
    {
      InsertFrom(o, init, x, e);
      if e != x {
        var k :| 0 <= k < |init| && init[k] == e;
        assert s[k] == e && s[|s| - 1] == last;
      }
    }
  }

  lemma SortedSnoc(o: Order, front: seq<AdminRow>, last: AdminRow)
    requires SortedBy(o, front)
    requires forall e :: e in front ==> Before(o, e, last)
    ensures SortedBy(o, front + [last])
  {
    var r := front + [last];
    forall i, j | 0 <= i < j < |r|
      ensures Before(o, r[i], r[j])
    {
      if j == |r| - 1 {
        assert r[i] == front[i];
      } else {
        assert r[i] == front[i] && r[j] == front[j];
      }
    }
  }

  lemma {:induction false} InsertSorted(o: Order, s: seq<AdminRow>, x: AdminRow)
    requires SortedBy(o, s)
    ensures SortedBy(o, Insert(o, s, x))
  {
    if s == [] || Before(o, s[|s| - 1], x) {
      forall e | e in s
        ensures Before(o, e, x)
      {
        var i :| 0 <= i < |s| && s[i] == e;
        if i < |s| - 1 {
          BeforeTrans(o, s[i], s[|s| - 1], x);
        }
      }
      SortedSnoc(o, s, x);
    } else {
      var init := s[..|s| - 1];
      InsertSorted(o, init, x);
      assert s == init + [s[|s| - 1]];
      FrontBeforeLast(o, init, s[|s| - 1], x);
      SortedSnoc(o, Insert(o, init, x), s[|s| - 1]);
    }
  }

  /** Rows from `s` keep their lower ids when `x`, with a higher id, is
      inserted in front of the last one. */
  lemma FrontIdsBelowLast(o: Order, init: seq<AdminRow>, last: AdminRow, x: AdminRow)
    requires TiesById(o, init + [last])
    requires forall e :: e in init ==> e.id < x.id
    requires last.id < x.id && !Before(o, last, x)
    ensures forall e :: e in Insert(o, init, x) && Before(o, last, e) ==> e.id < last.id
  {
    var s := init + [last];
    forall e | e in Insert(o, init, x) && Before(o, last, e)
      ensures e.id < last.id
    {
      InsertFrom(o, init, x, e);
      if e != x {
        var k :| 0 <= k < |init| && init[k] == e;
        assert s[k] == e && s[|s| - 1] == last;
      } else {
        assert false;
      }
    }
  }

  lemma {:induction false} InsertKeepsTies(o: Order, s: seq<AdminRow>, x: AdminRow)
    requires SortedBy(o, s) && TiesById(o, s)
    requires forall e :: e in s ==> e.id < x.id
    ensures TiesById(o, Insert(o, s, x))
  {
    if s == [] || Before(o, s[|s| - 1], x) {
      var r := s + [x];
      forall i, j | 0 <= i < j < |r| && Before(o, r[j], r[i])
        ensures r[i].id < r[j].id
      {
        assert r[i] == s[i];
        if j < |r| - 1 {
          assert r[j] == s[j];
        }
      }
    } else {
      var init := s[..|s| - 1];
      var last := s[|s| - 1];
      InsertKeepsTies(o, init, x);
      assert s == init + [last];
      FrontIdsBelowLast(o, init, last, x);
      var front := Insert(o, init, x);
      var r := front + [last];
      forall i, j | 0 <= i < j < |r| && Before(o, r[j], r[i])
        ensures r[i].id < r[j].id
      {
        assert r[i] == front[i];
        if j < |r| - 1 {
          assert r[j] == front[j];
        }
      }
    }
  }

  lemma {:induction false} SortRowsSorted(o: Order, rows: seq<AdminRow>)
    ensures SortedBy(o, SortRows(o, rows))
  {
    if rows != [] {
      SortRowsSorted(o, rows[..|rows| - 1]);
      InsertSorted(o, SortRows(o, rows[..|rows| - 1]), rows[|rows| - 1]);
    }
  }

  /** On rows in ascending id order the sort is stable: ties come out by
      ascending id, as the export's secondary `id.asc()` asks. */
  lemma {:induction false} SortRowsKeepsTies(o: Order, rows: seq<AdminRow>)
    requires IdsAscending(rows)
    ensures TiesById(o, SortRows(o, rows))
  {
    if rows != [] {
      var init := rows[..|rows| - 1];
      var x := rows[|rows| - 1];
      SortRowsKeepsTies(o, init);
      SortRowsSorted(o, init);
      var sorted := SortRows(o, init);
      forall e | e in sorted
        ensures e.id < x.id
      {
        assert e in multiset(sorted);
        var k :| 0 <= k < |init| && init[k] == e;
      }
      InsertKeepsTies(o, sorted, x);
    }
  }

  // ------------------------------------------------------------- execution

  /** The rows a query returns: those every condition accepts, ordered if it
      has an order. */
  function Run(q: Query, rows: seq<AdminRow>): seq<AdminRow> {
    var kept := Filter(r => AllHold(q.conditions, r), rows);
    if q.order.None? then kept else SortRows(q.order.value, kept)
  }

  /** The rows a selection asks for, in its order. */
  function Select(s: Selection, rows: seq<AdminRow>): seq<AdminRow> {
    var kept := Filter(r => Wanted(s, r), rows);
    if s.order.None? then kept else SortRows(s.order.value, kept)
  }

  /** A query built for a selection returns exactly what the selection asks for. */
  lemma RunMeansSelect(q: Query, s: Selection, rows: seq<AdminRow>)
    requires q.order == s.order
    requires forall r :: AllHold(q.conditions, r) <==> Wanted(s, r)
    ensures Run(q, rows) == Select(s, rows)
  {
    FilterAgrees(r => AllHold(q.conditions, r), r => Wanted(s, r), rows);
  }

  /** The selection holds every wanted row of the table once, each as often as
      in the table, sorted by the requested column. */
  lemma SelectContents(s: Selection, rows: seq<AdminRow>)
    ensures forall x :: x in Select(s, rows) <==> x in rows && Wanted(s, x)
    ensures multiset(Select(s, rows)) == multiset(Filter(r => Wanted(s, r), rows))
    ensures s.order.Some? ==> SortedBy(s.order.value, Select(s, rows))
  {
    var kept := Filter(r => Wanted(s, r), rows);
    if s.order.Some? {
      SortRowsSorted(s.order.value, kept);
      forall x
        ensures x in Select(s, rows) <==> x in kept
      {
        assert x in Select(s, rows) <==> x in multiset(Select(s, rows));
      }
    }
  }

  /** The export adds `id.asc()` after the requested order: on the table, whose
      ids ascend, the selection already has ties (and an unordered selection
      all rows) in ascending id order. */
  lemma SelectTiesById(s: Selection, rows: seq<AdminRow>)
    requires IdsInOrder(rows)
    ensures s.order.Some? ==> TiesById(s.order.value, Select(s, rows))
    ensures s.order.None? ==> IdsAscending(Select(s, rows))
  {
    FilterKeepsIdOrder(r => Wanted(s, r), rows);
    if s.order.Some? {
      SortRowsKeepsTies(s.order.value, Filter(r => Wanted(s, r), rows));
    }
  }

  // ---------------------------------------------------------------- paging

  const DefaultLimit: int := 50
  const MaxLimit: int := 500
  const MaxExport: int := 5000

  /** `.limit(limit).offset(offset)` on SQLite: a negative limit means no
      limit and a negative offset counts as zero. */
  function Page(rows: seq<AdminRow>, limit: int, offset: int): (r: seq<AdminRow>)
    ensures limit >= 0 ==> |r| <= limit
    ensures limit < 0 && offset <= 0 ==> r == rows
    ensures offset >= |rows| ==> r == []
    ensures var start := if offset < 0 then 0 else offset;
            forall i :: 0 <= i < |r| ==> start + i < |rows| && r[i] == rows[start + i]
  {
    var start := if offset < 0 then 0 else if offset > |rows| then |rows| else offset;
    var rest := rows[start..];
    if limit < 0 || limit >= |rest| then rest else rest[..limit]
  }

  /** Successive pages of `limit` rows, from `offset` on. */
  function PagesFrom(rows: seq<AdminRow>, limit: int, offset: nat): seq<AdminRow>
    requires limit > 0
    decreases |rows| - offset
  {
    if offset >= |rows| then [] else Page(rows, limit, offset) + PagesFrom(rows, limit, offset + limit)
  }

  /** Paging by `offset += limit` visits every row once, in order. */
  lemma {:induction false} PagesCoverRows(rows: seq<AdminRow>, limit: int, offset: nat)
    requires limit > 0 && offset <= |rows|
    ensures PagesFrom(rows, limit, offset) == rows[offset..]
    decreases |rows| - offset
  {
    if offset < |rows| {
      var end := if offset + limit <= |rows| then offset + limit else |rows|;
      PageIsSlice(rows, limit, offset);
      PagesCoverRows(rows, limit, end);
      assert PagesFrom(rows, limit, offset) == rows[offset..end] + PagesFrom(rows, limit, offset + limit);
      assert rows[offset..] == rows[offset..end] + rows[end..];
    }
  }

  lemma PageIsSlice(rows: seq<AdminRow>, limit: int, offset: nat)
    requires limit > 0 && offset <= |rows|
    ensures Page(rows, limit, offset) == rows[offset..if offset + limit <= |rows| then offset + limit else |rows|]
  {
  }

  /** `min(args.get("limit", default=50, type=int) or 50, 500)` as written. */
  function PageLimitAsWritten(args: Args): int {
    var given := IntArg(args, "limit").GetOr(DefaultLimit);
    var limit := if given == 0 then DefaultLimit else given;
    if limit < MaxLimit then limit else MaxLimit
  }

  /** As written, `limit=-1` gets past the cap of 500, and SQLite then
      returns every selected row, however many. */
  lemma NegativeLimitListsEverything(rows: seq<AdminRow>)
    ensures PageLimitAsWritten(map["limit" := JStr("-1")]) == -1
    ensures Page(rows, PageLimitAsWritten(map["limit" := JStr("-1")]), 0) == rows
  {
    MinusOneParses();
    MinusOneLimit(map["limit" := JStr("-1")]);
  }

  lemma MinusOneLimit(args: Args)
    requires "limit" in args && args["limit"] == JStr("-1") && PyInt("-1") == Some(-1)
    ensures PageLimitAsWritten(args) == -1
  {
    assert IntArg(args, "limit") == Some(-1);
  }

  lemma MinusOneParses()
    ensures PyInt("-1") == Some(-1)
  {
    var s := "-1";
    assert s[0] == '-' && s[1..] == "1";
    assert DigitsValue("1") == 1 by {
      assert "1"[..0] == "";
    }
    SignedDigitsOfNegated(s, "1");
    assert PyStrip(s) == s by {
      TrimOfTrimmed(s, IsPyWhitespace);
    }
  }

  /** The page size as evidently intended: between 1 and 500, with 50 for a
      missing, zero, negative or unreadable value. */
  function PageLimit(args: Args): (r: int)
    ensures 1 <= r <= MaxLimit
    ensures PageLimitAsWritten(args) > 0 ==> r == PageLimitAsWritten(args)
  {
    var limit := PageLimitAsWritten(args);
    if limit <= 0 then DefaultLimit else limit
  }

  /** `args.get("offset", default=0, type=int) or 0`. */
  function PageOffset(args: Args): int {
    IntArg(args, "offset").GetOr(0)
  }

  /** A listed page never holds more than 500 rows. */
  lemma PageIsCapped(rows: seq<AdminRow>, args: Args)
    ensures |Page(rows, PageLimit(args), PageOffset(args))| <= MaxLimit
  {
  }

  // ------------------------------------------------------------ row shapes

  /** `r.ts.isoformat() + "Z"`; rows are stored at whole seconds. */
  function TsText(p: Primitives, r: AdminRow): string {
    IsoSeconds(p, r.ts) + "Z"
  }

  /** A nullable text column in JSON. */
  function OptText(x: Option<string>): Json {
    if x.None? then JNull else JStr(x.value)
  }

  /** `_row_to_dict`. */
  function RowToDict(p: Primitives, r: AdminRow): Json {
    JObj(map[
      "id" := JInt(r.id),
      "admin_id" := JInt(r.adminId),
      "ts" := JStr(TsText(p, r)),
      "action" := JStr(r.action),
      "target_type" := OptText(r.targetType),
      "target_id" := OptText(r.targetId),
      "meta" := Meta(p, r),
      "justification" := JStr(Justification(p, r)),
      "prev_hash" := OptText(r.prevHash),
      "row_hash" := OptText(r.rowHash)])
  }

  function Dicts(p: Primitives, rows: seq<AdminRow>): (r: seq<Json>)
    ensures |r| == |rows|
  {
    seq(|rows|, i requires 0 <= i < |rows| => RowToDict(p, rows[i]))
  }

  const CsvHeader: seq<string> := ["id", "admin_id", "ts", "action", "target_type", "target_id",
                                   "meta_json", "justification", "prev_hash", "row_hash"]

  /** The cells `writerow` gets for one row. */
  function CsvRecord(p: Primitives, r: AdminRow): seq<string> {
    [IntToString(r.id), IntToString(r.adminId), TsText(p, r), r.action,
     OrEmptyText(r.targetType), OrEmptyText(r.targetId),
     JsonCanon(p, Some(Meta(p, r))), ReplaceChar(Justification(p, r), '\n', "\\n"),
     OrEmptyText(r.prevHash), OrEmptyText(r.rowHash)]
  }

  /** The header and one record per row. */
  function CsvTable(p: Primitives, rows: seq<AdminRow>): seq<seq<string>> {
    [CsvHeader] + seq(|rows|, i requires 0 <= i < |rows| => CsvRecord(p, rows[i]))
  }

  /** The text form of a JSON value in a CSV cell: null is empty. */
  function CellText(v: Json): string {
    match v
    case JNull => ""
    case JStr(s) => s
    case JInt(i) => IntToString(i)
    case _ => ""
  }

  /** `_row_to_dict` gives every column of the row, under its column name. */
  lemma DictHasEveryColumn(p: Primitives, r: AdminRow)
    ensures RowToDict(p, r).fields.Keys
         == {"id", "admin_id", "ts", "action", "target_type", "target_id",
             "meta", "justification", "prev_hash", "row_hash"}
  {
  }

  /** A CSV record has one cell per header column, and the justification cell
      holds no newline, so every record is one line. */
  lemma CsvRecordShape(p: Primitives, r: AdminRow)
    ensures |CsvRecord(p, r)| == |CsvHeader|
    ensures '\n' !in CsvRecord(p, r)[7]
  {
    assert '\n' !in "\\n";
  }

  /** The CSV export and the JSON listing show a row alike: the id and admin
      cells hold the dictionary's numbers as text, ... */
  lemma CsvIdsMatchDict(p: Primitives, r: AdminRow)
    ensures var d := RowToDict(p, r).fields;
            var c := CsvRecord(p, r);
            c[0] == CellText(d["id"]) && c[1] == CellText(d["admin_id"])
  {
  }

  /** ... and the timestamp and action cells hold the same text. */
  lemma CsvTextMatchesDict(p: Primitives, r: AdminRow)
    ensures var d := RowToDict(p, r).fields;
            var c := CsvRecord(p, r);
            c[2] == CellText(d["ts"]) && c[3] == CellText(d["action"])
  {
  }

  /** A NULL target or hash is an empty CSV cell and a JSON null. */
  lemma CsvNullableMatchesDict(p: Primitives, r: AdminRow)
    ensures var d := RowToDict(p, r).fields;
            var c := CsvRecord(p, r);
            c[4] == CellText(d["target_type"]) && c[5] == CellText(d["target_id"])
            && c[8] == CellText(d["prev_hash"]) && c[9] == CellText(d["row_hash"])
  {
  }

  /** The meta cell is the canonical JSON of the dictionary's `meta`, and the
      justification cell is its text with newlines escaped. */
  lemma CsvNotesMatchDict(p: Primitives, r: AdminRow)
    ensures var d := RowToDict(p, r).fields;
            var c := CsvRecord(p, r);
            c[6] == JsonCanon(p, Some(d["meta"]))
            && c[7] == ReplaceChar(CellText(d["justification"]), '\n', "\\n")
  {
  }

  /** The escape cannot be undone: a newline and a backslash followed by `n`
      give the same cell. */
  lemma JustificationEscapeMerges()
    ensures ReplaceChar("\n", '\n', "\\n") == ReplaceChar("\\n", '\n', "\\n")
    ensures "\n" != "\\n"
  {
    assert ReplaceChar("\\n", '\n', "\\n") == "\\" + ReplaceChar("n", '\n', "\\n");
  }

  /** `writer.writerow` over the fetched rows. */
  method CsvRecords(p: Primitives, rows: seq<AdminRow>) returns (records: seq<seq<string>>)
    ensures records == CsvTable(p, rows)
  {
    records := [CsvHeader];
    var i := 0;
    while i < |rows|
      invariant 0 <= i <= |rows|
      invariant records == CsvTable(p, rows[..i])
    {
      records := records + [CsvRecord(p, rows[i])];
      i := i + 1;
      assert records == CsvTable(p, rows[..i]) by {
        assert rows[..i][..i - 1] == rows[..i - 1];
      }
    }
    assert rows[..i] == rows;
  }

  /** The CSV export has a header and at most 5000 records. */
  lemma CsvExportIsCapped(p: Primitives, rows: seq<AdminRow>)
    ensures |CsvTable(p, Page(rows, MaxExport, 0))| <= MaxExport + 1
    ensures CsvTable(p, Page(rows, MaxExport, 0))[0] == CsvHeader
  {
  }

  // ------------------------------------------------------------- listing

  datatype Reply = JsonBody(body: Json) | CsvBody(records: seq<seq<string>>) | Failed(exception: string)

  /** The listing's JSON body. */
  function PageJson(p: Primitives, page: seq<AdminRow>, count: nat, limit: int, offset: int): Json {
    JObj(map["items" := JArr(Dicts(p, page)), "count" := JInt(count),
             "limit" := JInt(limit), "offset" := JInt(offset)])
  }

  /** What `list_admin_activity` answers for the selected rows: CSV of the
      first 5000, or one page with the count of all of them. */
  function Respond(p: Primitives, args: Args, rows: seq<AdminRow>): Reply {
    match TextOr(args, "format", "")
    case None => Failed("AttributeError")
    case Some(format) =>
      if Lower(format) == "csv" then CsvBody(CsvTable(p, Page(rows, MaxExport, 0)))
      else JsonBody(PageJson(p, Page(rows, PageLimit(args), PageOffset(args)),
                             |rows|, PageLimit(args), PageOffset(args)))
  }

  /** `GET /admin/activity`. */
  method ListAdminActivity(p: Primitives, parsers: DateParsers, users: seq<AuthServer.User>,
                           currentAdmin: int, table: seq<AdminRow>, args: Args)
    returns (reply: Reply)
    ensures match ReadSelection(parsers, users, currentAdmin, args)
            case None => reply == Failed("AttributeError")
            case Some(s) => reply == Respond(p, args, Select(s, table))
  {
    var b := BuildQuery(parsers, users, currentAdmin, args);
    if b.Raised? {
      return Failed(b.exception);
    }
    RunMeansSelect(b.query, ReadSelection(parsers, users, currentAdmin, args).value, table);
    var format := TextOr(args, "format", "");
    if format.None? {
      return Failed("AttributeError");
    }
    if Lower(format.value) == "csv" {
      var records := CsvRecords(p, Page(Run(b.query, table), MaxExport, 0));
      return CsvBody(records);
    }
    var limit := PageLimit(args);
    var offset := PageOffset(args);
    var total := |Run(b.query, table)|;
    var page := Page(Run(b.query, table), limit, offset);
    reply := JsonBody(PageJson(p, page, total, limit, offset));
  }

  /** A listed page: `count` is the number of all selected rows, whatever the
      paging; the page holds at most `limit` (at most 500) of them, and every
      one is a wanted row of the table. */
  lemma ListedPage(p: Primitives, s: Selection, table: seq<AdminRow>, args: Args)
    requires Respond(p, args, Select(s, table)).JsonBody?
    ensures var rows := Select(s, table);
            var page := Page(rows, PageLimit(args), PageOffset(args));
            Respond(p, args, rows).body == PageJson(p, page, |rows|, PageLimit(args), PageOffset(args))
            && |page| <= PageLimit(args) <= MaxLimit
            && forall x :: x in page ==> x in table && Wanted(s, x)
  {
    var rows := Select(s, table);
    var page := Page(rows, PageLimit(args), PageOffset(args));
    SelectContents(s, table);
    forall x | x in page
      ensures x in rows
    {
      var i :| 0 <= i < |page| && page[i] == x;
    }
  }

  // ------------------------------------------------------------- exporting

  /** `str(v)` of a truthy body `admin_id`, as far as `int()` reads it back: a
      list or an object prints with an opening bracket or brace, which `int`
      refuses. */
  function PyStr(v: Json): string {
    match v
    case JStr(s) => s
    case JInt(i) => IntToString(i)
    case JBool(b) => if b then "True" else "False"
    case JNull => "None"
    case JArr(_) => "["
    case JObj(_) => "{"
  }

  /** The arguments the export queries with: the query string, overridden by
      the body's `filters`, and `admin_id` by a truthy body `admin_id`. None
      where the body or its filters are not objects (AttributeError). */
  function MergedArgs(query: Args, body: Option<Json>): Option<Args> {
    var b := OrEmpty(body);
    if !b.JObj? then None
    else
      var filters := OrEmpty(Get(b.fields, "filters"));
      if !filters.JObj? then None
      else
        var merged := query + filters.fields;
        var adminId := Get(b.fields, "admin_id");
        if adminId.Some? && !Falsy(adminId.value) then Some(merged["admin_id" := JStr(PyStr(adminId.value))])
        else Some(merged)
  }

  /** The argument merging of `export_admin_activity`. */
  method MergeArgs(query: Args, body: Option<Json>) returns (merged: Option<Args>)
    ensures merged == MergedArgs(query, body)
  {
    var b := OrEmpty(body);
    if !b.JObj? {
      return None;
    }
    var filters := OrEmpty(Get(b.fields, "filters"));
    if !filters.JObj? {
      return None;
    }
    var args := CopyFilters(query, filters.fields);
    var adminId := Get(b.fields, "admin_id");
    if adminId.Some? && !Falsy(adminId.value) {
      args := args["admin_id" := JStr(PyStr(adminId.value))];
    }
    return Some(args);
  }

  /** `for k, v in filters.items(): args_like[k] = v`. */
  method CopyFilters(query: Args, filters: map<string, Json>) returns (args: Args)
    ensures args == query + filters
  {
    args := query;
    var todo := filters.Keys;
    while todo != {}
      invariant todo <= filters.Keys
      invariant args == query + Restrict(filters, filters.Keys - todo)
      decreases |todo|
    {
      var k :| k in todo;
      CopyStep(query, filters, filters.Keys - todo, k);
      args := args[k := filters[k]];
      assert filters.Keys - (todo - {k}) == (filters.Keys - todo) + {k};
      todo := todo - {k};
    }
    RestrictAll(filters);
  }

  /** The entries of `m` whose keys are in `keys`. */
  function Restrict(m: map<string, Json>, keys: set<string>): map<string, Json> {
    map k | k in keys && k in m :: m[k]
  }

  lemma CopyStep(query: Args, filters: map<string, Json>, done: set<string>, k: string)
    requires k in filters
    ensures (query + Restrict(filters, done))[k := filters[k]] == query + Restrict(filters, done + {k})
  {
  }

  lemma RestrictAll(m: map<string, Json>)
    ensures Restrict(m, m.Keys) == m
  {
  }

  /** A body filter replaces the query-string argument of the same name. */
  lemma ExportFiltersOverride(query: Args, fields: map<string, Json>, filters: map<string, Json>, k: string)
    requires "filters" in fields && fields["filters"] == JObj(filters) && k in filters
    requires k != "admin_id" || "admin_id" !in fields
    ensures MergedArgs(query, Some(JObj(fields))).Some?
    ensures MergedArgs(query, Some(JObj(fields))).value[k] == filters[k]
  {
  }

  /** A non-zero integer `admin_id` in the body selects that admin's rows,
      whatever the query string's `admin_id` says. */
  lemma ExportAdminIdWins(users: seq<AuthServer.User>, currentAdmin: int, query: Args,
                          fields: map<string, Json>, i: int)
    requires "admin_id" in fields && fields["admin_id"] == JInt(i) && i != 0
    requires "filters" !in fields && "email" !in query
    ensures MergedArgs(query, Some(JObj(fields))).Some?
    ensures ReadScope(users, currentAdmin, MergedArgs(query, Some(JObj(fields))).value) == Some(OneAdmin(i))
  {
    MergedAdminId(query, fields, i);
    var args := MergedArgs(query, Some(JObj(fields))).value;
    PyIntOfIntToString(i);
    assert IntArg(args, "admin_id") == Some(i);
    AdminIdOrCaller(users, currentAdmin, args);
  }

  lemma MergedAdminId(query: Args, fields: map<string, Json>, i: int)
    requires "admin_id" in fields && fields["admin_id"] == JInt(i) && i != 0
    requires "filters" !in fields && "email" !in query
    ensures MergedArgs(query, Some(JObj(fields))).Some?
    ensures var args := MergedArgs(query, Some(JObj(fields))).value;
            "email" !in args && "admin_id" in args && args["admin_id"] == JStr(IntToString(i))
  {
    assert OrEmpty(Some(JObj(fields))) == JObj(fields);
    assert Get(fields, "filters") == None;
    assert query + map[] == query;
  }

  datatype ExportReply = Exported(payload: seq<Json>) | ExportFailed(exception: string)

  /** `POST /admin/activity/export`: every selected row, sorted by the
      requested column and then by ascending id. */
  method ExportAdminActivity(p: Primitives, parsers: DateParsers, users: seq<AuthServer.User>,
                             currentAdmin: int, table: seq<AdminRow>, query: Args, body: Option<Json>)
    returns (reply: ExportReply)
    ensures match MergedArgs(query, body)
            case None => reply == ExportFailed("AttributeError")
            case Some(args) =>
              match ReadSelection(parsers, users, currentAdmin, args)
              case None => reply == ExportFailed("AttributeError")
              case Some(s) => reply == Exported(Dicts(p, Select(s, table)))
  {
    var args := MergeArgs(query, body);
    if args.None? {
      return ExportFailed("AttributeError");
    }
    var b := BuildQuery(parsers, users, currentAdmin, args.value);
    if b.Raised? {
      return ExportFailed(b.exception);
    }
    RunMeansSelect(b.query, ReadSelection(parsers, users, currentAdmin, args.value).value, table);
    reply := Exported(Dicts(p, Run(b.query, table)));
  }
}
