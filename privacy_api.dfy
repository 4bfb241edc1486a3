/** The privacy endpoints: the coercion of settings values, the settings diff
    that `update_privacy_settings` writes, logs and records as consents,
    consent recording, and the two newest-first listings. The
    `user_settings` and `consent_log` tables are fields of one object; the
    activity rows go to the users' hash chains. */
module PrivacyApi {
  import opened Base
  import opened Json
  import opened Crypto
  import ActivityChain

  /** What a handler answers: a JSON message with a status, or the 500 an
      exception of the named type produces (its text is not modelled). */
  datatype Reply = Reply(status: int, message: string) | Raised(status: int, exception: string)

  // ------------------------------------------------------------- coercion

  const TrueWords: set<string> := {"true", "1", "yes", "y", "on"}
  const FalseWords: set<string> := {"false", "0", "no", "n", "off"}

  /** The listed words are either true or false words, never both. */
  lemma WordsDisjoint()
    ensures forall w :: w in FalseWords ==> w !in TrueWords
  {
    assert forall t :: t in TrueWords ==>
      |t| > 0 && (t[0] == 't' || t[0] == '1' || t[0] == 'y' || (t[0] == 'o' && |t| == 2));
    assert forall w :: w in FalseWords ==>
      |w| > 0 && (w[0] == 'f' || w[0] == '0' || w[0] == 'n' || (w[0] == 'o' && |w| == 3));
  }

  /** `value.strip().lower()`. */
  function Word(s: string): string {
    Lower(PyStrip(s))
  }

  /** `_to_bool` on the JSON values a request body can hold: booleans as
      they are, numbers by `bool`, the listed words (stripped, any case) by
      their meaning, and every other value by Python truthiness. */
  function ToBool(v: Json): (r: bool)
    ensures v.JBool? ==> r == v.b
    ensures v.JInt? ==> (r <==> v.i != 0)
    ensures v.JStr? && Word(v.s) in TrueWords ==> r
    ensures v.JStr? && Word(v.s) in FalseWords ==> !r
    ensures v.JStr? && Word(v.s) !in TrueWords && Word(v.s) !in FalseWords ==> (r <==> v.s != "")
    ensures !v.JStr? ==> (r <==> !Falsy(v))
  {
    WordsDisjoint();
    if v.JStr? then
      var w := Word(v.s);
      if w in TrueWords then true
      else if w in FalseWords then false
      else v.s != ""
    else !Falsy(v)
  }

  /** The JSON boolean, 1/0 and the words "true"/"false" all read back as
      the flag they spell. */
  lemma ToBoolReadsBack(b: bool)
    ensures ToBool(JBool(b)) == b
    ensures ToBool(JInt(if b then 1 else 0)) == b
    ensures ToBool(JStr(if b then "true" else "false")) == b
  {
    var w := if b then "true" else "false";
    assert PyStrip(w) == w by {
      TrimOfTrimmed(w, IsPyWhitespace);
    }
    assert Lower(w) == w;
  }

  /** A string of blanks is not one of the words, so it falls through to
      `bool(value)` and reads as True. */
  lemma BlankTextIsTrue(s: string)
    requires s != [] && forall i :: 0 <= i < |s| ==> s[i] == ' '
    ensures ToBool(JStr(s))
  {
    assert PyStrip(s) == [];
  }

  // -------------------------------------------------------------- settings

  /** A `user_settings` row's four flags. */
  datatype Settings = Settings(profilePublic: bool, shareUsage: bool, adPersonalization: bool,
                               showLastSeen: bool)

  /** The column defaults of a new row. */
  const DefaultSettings: Settings := Settings(false, false, false, false)

  /** The body keys the handler looks at, in its order. */
  const SettingsKeys: seq<string> := ["profile_public", "share_usage", "ad_personalization", "show_last_seen"]

  /** `getattr(s, SettingsKeys[i])`. */
  function Field(s: Settings, i: nat): bool
    requires i < 4
  {
    if i == 0 then s.profilePublic
    else if i == 1 then s.shareUsage
    else if i == 2 then s.adPersonalization
    else s.showLastSeen
  }

  /** `setattr(s, SettingsKeys[i], v)`: that flag becomes `v`, the others stay. */
  function WithField(s: Settings, i: nat, v: bool): (r: Settings)
    requires i < 4
    ensures Field(r, i) == v
    ensures forall j :: 0 <= j < 4 && j != i ==> Field(r, j) == Field(s, j)
  {
    if i == 0 then s.(profilePublic := v)
    else if i == 1 then s.(shareUsage := v)
    else if i == 2 then s.(adPersonalization := v)
    else s.(showLastSeen := v)
  }

  /** An entry of `changed`: the key with its old and new value. */
  datatype Change = Change(key: string, before: bool, after: bool)

  /** The body asks for a value of flag `i` other than the one stored in `s`. */
  predicate Differs(s: Settings, data: map<string, Json>, i: nat)
    requires i < 4
  {
    SettingsKeys[i] in data && ToBool(data[SettingsKeys[i]]) != Field(s, i)
  }

  /** `changed` once the loop has looked at the first `n` keys of the row `s`
      it started from. */
  function Diff(s: Settings, data: map<string, Json>, n: nat): seq<Change>
    requires n <= 4
  {
    if n == 0 then []
    else
      var k := SettingsKeys[n - 1];
      Diff(s, data, n - 1)
      + (if Differs(s, data, n - 1) then [Change(k, Field(s, n - 1), ToBool(data[k]))] else [])
  }

  /** The row once the loop has looked at the first `n` keys: each key is
      compared with the row as the earlier iterations left it. */
  function Applied(s: Settings, data: map<string, Json>, n: nat): Settings
    requires n <= 4
  {
    if n == 0 then s
    else
      var t := Applied(s, data, n - 1);
      if Differs(t, data, n - 1) then WithField(t, n - 1, ToBool(data[SettingsKeys[n - 1]])) else t
  }

  /** After the first `n` keys, each of those flags holds the body's value
      when the body has its key, and every other flag is as it was. */
  lemma {:induction false} AppliedFields(s: Settings, data: map<string, Json>, n: nat)
    requires n <= 4
    ensures forall j :: 0 <= j < 4 ==>
              Field(Applied(s, data, n), j)
              == if j < n && SettingsKeys[j] in data then ToBool(data[SettingsKeys[j]]) else Field(s, j)
  {
    if n > 0 {
      AppliedFields(s, data, n - 1);
    }
  }

  /** `changed` lists, in key order, exactly the flags the body asks to
      change, each with its stored and its requested value. */
  lemma {:induction false} DiffExactly(s: Settings, data: map<string, Json>, n: nat)
    requires n <= 4
    ensures forall i :: 0 <= i < n ==>
              (Differs(s, data, i) <==> exists c :: c in Diff(s, data, n) && c.key == SettingsKeys[i])
    ensures forall c :: c in Diff(s, data, n) ==>
              exists i :: 0 <= i < n && Differs(s, data, i)
                          && c == Change(SettingsKeys[i], Field(s, i), ToBool(data[SettingsKeys[i]]))
    ensures forall a, b :: 0 <= a < b < |Diff(s, data, n)| ==> Diff(s, data, n)[a].key != Diff(s, data, n)[b].key
  {
    if n > 0 {
      DiffExactly(s, data, n - 1);
      var d := Diff(s, data, n);
      var prefix := Diff(s, data, n - 1);
      forall c | c in prefix
        ensures c.key != SettingsKeys[n - 1]
      {
      }
    }
  }

  /** Sending the same body again finds nothing to change. */
  lemma ReapplyingChangesNothing(s: Settings, data: map<string, Json>)
    ensures Diff(Applied(s, data, 4), data, 4) == []
  {
    var t := Applied(s, data, 4);
    AppliedFields(s, data, 4);
    DiffExactly(t, data, 4);
    if Diff(t, data, 4) != [] {
      var c := Diff(t, data, 4)[0];
      assert c in Diff(t, data, 4);
      var i :| 0 <= i < 4 && Differs(t, data, i) && c == Change(SettingsKeys[i], Field(t, i), ToBool(data[SettingsKeys[i]]));
      assert false;
    }
  }

  /** Body keys other than the four flags are ignored: bodies that agree on
      the four keys give the same `changed` and the same row. */
  lemma {:induction false} OtherKeysIgnored(s: Settings, data: map<string, Json>, other: map<string, Json>, n: nat)
    requires n <= 4
    requires forall i :: 0 <= i < 4 ==>
               (SettingsKeys[i] in data <==> SettingsKeys[i] in other)
               && (SettingsKeys[i] in data ==> data[SettingsKeys[i]] == other[SettingsKeys[i]])
    ensures Diff(s, data, n) == Diff(s, other, n)
    ensures Applied(s, data, n) == Applied(s, other, n)
  {
    if n > 0 {
      OtherKeysIgnored(s, data, other, n - 1);
    }
  }

  /** The `changed` dict as JSON: each key maps to {"old": ..., "new": ...}. */
  function ChangesJson(changes: seq<Change>): (r: map<string, Json>)
    ensures forall c :: c in changes ==> c.key in r
    ensures forall k :: k in r ==> exists c :: c in changes && c.key == k
  {
    if changes == [] then map[]
    else
      var c := changes[|changes| - 1];
      ChangesJson(changes[..|changes| - 1])[c.key := JObj(map["old" := JBool(c.before), "new" := JBool(c.after)])]
  }

  /** `_ensure_settings`: a row with the column defaults is created only
      when the user has none. */
  function Ensured(settings: map<int, Settings>, userId: int): (r: map<int, Settings>)
    ensures userId in r
    ensures userId in settings ==> r == settings
    ensures userId !in settings ==> r[userId] == DefaultSettings
    ensures forall u :: u != userId ==> (u in r <==> u in settings) && (u in r ==> r[u] == settings[u])
  {
    if userId in settings then settings else settings[userId := DefaultSettings]
  }

  lemma EnsuredIdempotent(settings: map<int, Settings>, userId: int)
    ensures Ensured(Ensured(settings, userId), userId) == Ensured(settings, userId)
  {
  }

  /** `key in data` for a truthy body that is not an object: membership for
      a list, a substring test for a string; None where `in` raises
      TypeError (numbers and True). */
  function KeyInBody(data: Json, key: string): Option<bool> {
    match data
    case JArr(items) => Some(JStr(key) in items)
    case JStr(s) => Some(Contains(s, key))
    case JObj(fields) => Some(key in fields)
    case _ => None
  }

  /** What `update_privacy_settings` answers for a truthy body that is not an
      object: no key found means "No changes"; otherwise `in` or the
      subscript `data[key]` raises TypeError. */
  function NonObjectReply(data: Json): (r: Reply)
    requires !data.JObj?
    ensures r == Reply(200, "No changes") <==> forall i :: 0 <= i < 4 ==> KeyInBody(data, SettingsKeys[i]) == Some(false)
    ensures r != Reply(200, "No changes") ==> r == Raised(500, "TypeError")
  {
    if forall i :: 0 <= i < 4 ==> KeyInBody(data, SettingsKeys[i]) == Some(false) then Reply(200, "No changes")
    else Raised(500, "TypeError")
  }

  // -------------------------------------------------------------- consents

  datatype ConsentRow = ConsentRow(id: nat, userId: int, ts: int, item: string, version: Option<string>,
                                   action: string)

  predicate ConsentIdsInOrder(rows: seq<ConsentRow>) {
    forall i :: 0 <= i < |rows| ==> rows[i].id == i + 1
  }

  /** The rows the handler adds for `changed`, one per key, after `start`
      existing rows. */
  function ConsentRows(start: nat, userId: int, changes: seq<Change>, now: int): (r: seq<ConsentRow>)
    ensures |r| == |changes|
    ensures forall i :: 0 <= i < |r| ==>
              r[i] == ConsentRow(start + i + 1, userId, now, changes[i].key, None, "updated")
  {
    if changes == [] then []
    else
      ConsentRows(start, userId, changes[..|changes| - 1], now)
      + [ConsentRow(start + |changes|, userId, now, changes[|changes| - 1].key, None, "updated")]
  }

  predicate IsConsentAction(a: string) {
    a == "accepted" || a == "revoked" || a == "updated"
  }

  /** `(data.get(key) or "")` before `.strip()`: None when the value is a
      truthy non-string, on which `.strip()` raises AttributeError. */
  function TextArg(fields: map<string, Json>, key: string): (r: Option<string>)
    ensures key !in fields ==> r == Some("")
    ensures key in fields && fields[key].JStr? ==> r == Some(fields[key].s)
    ensures r.None? <==> key in fields && !fields[key].JStr? && !Falsy(fields[key])
  {
    if key !in fields || Falsy(fields[key]) then Some("")
    else if fields[key].JStr? then Some(fields[key].s)
    else None
  }

  /** How `record_consent` reads a body that parsed as JSON. */
  datatype ConsentRequest =
    | BadBody(exception: string)
    | InvalidPayload
    | Consent(item: string, version: Option<string>, action: string)

  /** The handler's checks on the three text arguments: `item` and
      `version` stripped, `action` stripped and lower-cased; an empty
      version is stored as None. */
  function CheckConsent(item: string, version: string, action: string): (r: ConsentRequest)
    ensures !r.BadBody?
    ensures r.Consent? <==> PyStrip(item) != "" && IsConsentAction(Lower(PyStrip(action)))
    ensures r.Consent? ==>
              r.item == PyStrip(item) && r.action == Lower(PyStrip(action))
              && r.version == (if PyStrip(version) == "" then None else Some(PyStrip(version)))
  {
    var i := PyStrip(item);
    var v := PyStrip(version);
    var a := Lower(PyStrip(action));
    if i == "" || !IsConsentAction(a) then InvalidPayload
    else Consent(i, if v == "" then None else Some(v), a)
  }

  /** How `record_consent` reads a body that parsed as JSON. */
  function ReadConsent(body: Json): (r: ConsentRequest)
    ensures r.BadBody? ==> r.exception == "AttributeError"
    ensures r.BadBody? <==>
              !OrEmpty(Some(body)).JObj?
              || TextArg(OrEmpty(Some(body)).fields, "item").None?
              || TextArg(OrEmpty(Some(body)).fields, "version").None?
              || TextArg(OrEmpty(Some(body)).fields, "action").None?
    ensures !r.BadBody? ==>
              var fields := OrEmpty(Some(body)).fields;
              r == CheckConsent(TextArg(fields, "item").value, TextArg(fields, "version").value,
                                TextArg(fields, "action").value)
  {
    var data := OrEmpty(Some(body));
    if !data.JObj? then BadBody("AttributeError")
    else
      var item := TextArg(data.fields, "item");
      var version := TextArg(data.fields, "version");
      var action := TextArg(data.fields, "action");
      if item.None? || version.None? || action.None? then BadBody("AttributeError")
      else CheckConsent(item.value, version.value, action.value)
  }

  /** What a recorded consent can hold: a non-blank stripped item, a
      non-blank stripped version if any, and one of the three actions. */
  predicate RecordableConsent(c: ConsentRequest) {
    c.Consent? && c.item != "" && IsTrimmed(c.item, IsPyWhitespace) && IsConsentAction(c.action)
    && (c.version.Some? ==> c.version.value != "" && IsTrimmed(c.version.value, IsPyWhitespace))
  }

  /** Every accepted body is recordable. */
  lemma ReadConsentRecordable(body: Json)
    requires ReadConsent(body).Consent?
    ensures RecordableConsent(ReadConsent(body))
  {
    var fields := OrEmpty(Some(body)).fields;
    TrimIsTrimmed(TextArg(fields, "item").value, IsPyWhitespace);
    TrimIsTrimmed(TextArg(fields, "version").value, IsPyWhitespace);
  }

  /** The body a client sends for a consent: the version as "" when absent. */
  function ConsentBody(c: ConsentRequest): Json
    requires c.Consent?
  {
    JObj(map["item" := JStr(c.item), "version" := JStr(if c.version.None? then "" else c.version.value),
             "action" := JStr(c.action)])
  }

  /** The three actions are stripped and lower-case already. */
  lemma ActionIsCanonical(a: string)
    requires IsConsentAction(a)
    ensures PyStrip(a) == a && Lower(a) == a
  {
    assert IsTrimmed(a, IsPyWhitespace);
    TrimOfTrimmed(a, IsPyWhitespace);
  }

  /** The three arguments `record_consent` reads from a consent body. */
  lemma ConsentBodyArgs(c: ConsentRequest)
    requires c.Consent?
    ensures OrEmpty(Some(ConsentBody(c))) == ConsentBody(c)
    ensures TextArg(ConsentBody(c).fields, "item") == Some(c.item)
    ensures TextArg(ConsentBody(c).fields, "version") == Some(if c.version.None? then "" else c.version.value)
    ensures TextArg(ConsentBody(c).fields, "action") == Some(c.action)
  {
    var m := ConsentBody(c).fields;
    assert "item" in m;
    assert |"item"| == 4 && |"version"| == 7 && |"action"| == 6;
  }

  /** An object body whose three arguments are text (or absent) goes to the checks. */
  lemma ReadConsentOfObject(fields: map<string, Json>)
    requires TextArg(fields, "item").Some? && TextArg(fields, "version").Some? && TextArg(fields, "action").Some?
    ensures ReadConsent(JObj(fields))
            == CheckConsent(TextArg(fields, "item").value, TextArg(fields, "version").value,
                            TextArg(fields, "action").value)
  {
    assert OrEmpty(Some(JObj(fields))).fields == fields;
    assert !ReadConsent(JObj(fields)).BadBody?;
  }

  /** The checks accept a recordable consent's own texts unchanged. */
  lemma CheckConsentOfRecordable(c: ConsentRequest)
    requires RecordableConsent(c)
    ensures CheckConsent(c.item, if c.version.None? then "" else c.version.value, c.action) == c
  {
    var v := if c.version.None? then "" else c.version.value;
    assert PyStrip(c.item) == c.item by { TrimOfTrimmed(c.item, IsPyWhitespace); }
    assert PyStrip(v) == v by { TrimOfTrimmed(v, IsPyWhitespace); }
    assert Lower(PyStrip(c.action)) == c.action by { ActionIsCanonical(c.action); }
  }

  /** Every recordable consent, sent as a body, is read back as itself. */
  lemma ReadConsentRoundTrip(c: ConsentRequest)
    requires RecordableConsent(c)
    ensures ReadConsent(ConsentBody(c)) == c
  {
    ConsentBodyArgs(c);
    ReadConsentOfObject(ConsentBody(c).fields);
    CheckConsentOfRecordable(c);
  }

  /** A body without an item is refused whatever the action. */
  lemma ReadConsentRefusesMissingItem(fields: map<string, Json>)
    requires "item" !in fields
    requires TextArg(fields, "version").Some? && TextArg(fields, "action").Some?
    ensures ReadConsent(JObj(fields)) == InvalidPayload
  {
    ReadConsentOfObject(fields);
    assert PyStrip("") == "";
  }

  // ------------------------------------------------------------- listings

  /** `order_by(id.desc()).limit(limit)` over rows kept in ascending id
      order: the last `limit` of them, newest first. */
  function NewestFirst<T>(rows: seq<T>, limit: nat): (r: seq<T>)
    ensures |r| == if limit < |rows| then limit else |rows|
    ensures forall i :: 0 <= i < |r| ==> r[i] == rows[|rows| - 1 - i]
  {
    if limit == 0 || rows == [] then []
    else [rows[|rows| - 1]] + NewestFirst(rows[..|rows| - 1], limit - 1)
  }

  /** `my_activity`'s page size: `int(limit)` (50 when absent or when that
      raises ValueError), clamped to [1, 200]. */
  function ActivityLimit(arg: Option<string>): (r: nat)
    ensures 1 <= r <= 200
    ensures arg.None? || PyInt(arg.value).None? ==> r == 50
    ensures arg.Some? && PyInt(arg.value).Some? && 1 <= PyInt(arg.value).value <= 200 ==> r == PyInt(arg.value).value
    ensures arg.Some? && PyInt(arg.value).Some? && PyInt(arg.value).value < 1 ==> r == 1
    ensures arg.Some? && PyInt(arg.value).Some? && PyInt(arg.value).value > 200 ==> r == 200
  {
    var n := if arg.None? then 50 else PyInt(arg.value).GetOr(50);
    if n < 1 then 1 else if n > 200 then 200 else n
  }

  /** A page size the client writes in decimal is used as it is. */
  lemma ActivityLimitReadsBack(n: int)
    requires 1 <= n <= 200
    ensures ActivityLimit(Some(IntToString(n))) == n
  {
    PyIntOfIntToString(n);
  }

  /** The user's rows in ascending id order, as `filter_by(user_id=...)` finds them. */
  function ConsentsOf(rows: seq<ConsentRow>, userId: int): (r: seq<ConsentRow>)
    ensures forall x :: x in r <==> x in rows && x.userId == userId
  {
    if rows == [] then []
    else ConsentsOf(rows[..|rows| - 1], userId)
         + (if rows[|rows| - 1].userId == userId then [rows[|rows| - 1]] else [])
  }

  /** `my_activity`: the user's newest activity rows, at most the page size. */
  function MyActivity(rows: seq<ActivityChain.ActivityRow>, userId: int, limitArg: Option<string>)
    : (r: seq<ActivityChain.ActivityRow>)
    ensures |r| <= 200 && |r| <= |ActivityChain.RowsOf(rows, userId)|
    ensures forall x :: x in r ==> x in rows && x.userId == userId
  {
    NewestFirst(ActivityChain.RowsOf(rows, userId), ActivityLimit(limitArg))
  }

  /** `list_consents`: the user's newest 200 consent rows. */
  function ListConsents(rows: seq<ConsentRow>, userId: int): (r: seq<ConsentRow>)
    ensures |r| <= 200
    ensures forall x :: x in r ==> x in rows && x.userId == userId
  {
    NewestFirst(ConsentsOf(rows, userId), 200)
  }

  /** Ids strictly ascending along the sequence. */
  predicate Ascending(r: seq<ActivityChain.ActivityRow>) {
    forall a, b :: 0 <= a < b < |r| ==> r[a].id < r[b].id
  }

  /** The user's rows, as `filter_by` finds them, keep the table's id order. */
  lemma {:induction false} ActivityRowsOfAscending(rows: seq<ActivityChain.ActivityRow>, userId: int)
    requires ActivityChain.IdsInOrder(rows)
    ensures Ascending(ActivityChain.RowsOf(rows, userId))
    ensures forall x :: x in ActivityChain.RowsOf(rows, userId) ==> x.id <= |rows|
  {
    if rows != [] {
      var init := rows[..|rows| - 1];
      var last := rows[|rows| - 1];
      assert ActivityChain.IdsInOrder(init);
      ActivityRowsOfAscending(init, userId);
      var r0 := ActivityChain.RowsOf(init, userId);
      var r := ActivityChain.RowsOf(rows, userId);
      assert r == r0 + (if last.userId == userId then [last] else []);
      assert last.id == |rows|;
      forall a, b | 0 <= a < b < |r|
        ensures r[a].id < r[b].id
      {
        assert r[a] == r0[a] && r0[a] in r0;
        if b < |r0| {
          assert r[b] == r0[b];
          assert r0[a].id < r0[b].id;
        } else {
          assert last.userId == userId && r[b] == last;
          assert r0[a].id <= |init|;
          assert r[a].id < |rows|;
        }
      }
      forall x | x in r
        ensures x.id <= |rows|
      {
        if x in r0 {
        } else {
          assert x == last;
        }
      }
    }
  }

  /** The listing shows the user's rows strictly newest first. */
  lemma MyActivityNewestFirst(rows: seq<ActivityChain.ActivityRow>, userId: int, limitArg: Option<string>)
    requires ActivityChain.IdsInOrder(rows)
    ensures var r := MyActivity(rows, userId, limitArg);
            forall a, b :: 0 <= a < b < |r| ==> r[a].id > r[b].id
  {
    ActivityRowsOfAscending(rows, userId);
    var mine := ActivityChain.RowsOf(rows, userId);
    var r := MyActivity(rows, userId, limitArg);
    forall a, b | 0 <= a < b < |r|
      ensures r[a].id > r[b].id
    {
      var i, j := |mine| - 1 - b, |mine| - 1 - a;
      assert r[a] == mine[j] && r[b] == mine[i];
      assert 0 <= i < j < |mine|;
      assert mine[i].id < mine[j].id;
    }
  }

  /** The activity event of a recorded consent: `"CONSENT_" + action.upper()`. */
  function ConsentEvent(c: ConsentRequest): (r: string)
    requires c.Consent?
    ensures |r| == 8 + |c.action| && r[..8] == "CONSENT_"
  {
    "CONSENT_" + Upper(c.action)
  }

  /** The activity meta of a recorded consent: the item and the version, null when absent. */
  function ConsentMeta(c: ConsentRequest): (r: Json)
    requires c.Consent?
    ensures r.JObj? && r.fields.Keys == {"item", "version"}
    ensures r.fields["item"] == JStr(c.item)
    ensures r.fields["version"] == if c.version.None? then JNull else JStr(c.version.value)
  {
    JObj(map["item" := JStr(c.item), "version" := if c.version.None? then JNull else JStr(c.version.value)])
  }

  /** The loop of `update_privacy_settings` over the four keys: each key in
      the body whose coerced value differs from the row's is set and listed. */
  method ApplyBody(s0: Settings, fields: map<string, Json>) returns (s: Settings, changed: seq<Change>)
    ensures s == Applied(s0, fields, 4) && changed == Diff(s0, fields, 4)
  {
    s := s0;
    changed := [];
    var i := 0;
    while i < 4
      invariant 0 <= i <= 4
      invariant s == Applied(s0, fields, i)
      invariant changed == Diff(s0, fields, i)
    {
      AppliedFields(s0, fields, i);
      var key := SettingsKeys[i];
      if key in fields {
        var newVal := ToBool(fields[key]);
        var oldVal := Field(s, i);
        if oldVal != newVal {
          s := WithField(s, i, newVal);
          changed := changed + [Change(key, oldVal, newVal)];
        }
      }
      i := i + 1;
    }
  }

  /** The activity meta of a settings update: `{"changed": changed}`. */
  function PrivacyMeta(changed: seq<Change>): (r: Json)
    ensures r.JObj? && r.fields.Keys == {"changed"} && r.fields["changed"] == JObj(ChangesJson(changed))
  {
    JObj(map["changed" := JObj(ChangesJson(changed))])
  }

  // ----------------------------------------------------------------- tables

  /** The `user_settings` table (keyed by its unique `user_id`), the
      `consent_log` table and the activity log the handlers append to. */
  class PrivacyDb {
    var settings: map<int, Settings>
    var consents: seq<ConsentRow>
    const activity: ActivityChain.ActivityLog

    ghost predicate Valid()
      reads this, activity
    {
      ConsentIdsInOrder(consents) && activity.Valid()
    }

    constructor (activity: ActivityChain.ActivityLog)
      requires activity.Valid()
      ensures Valid() && settings == map[] && consents == [] && this.activity == activity
    {
      settings := map[];
      consents := [];
      this.activity := activity;
    }

    /** `_ensure_settings`. */
    method EnsureSettings(userId: int) returns (s: Settings)
      modifies this
      ensures settings == Ensured(old(settings), userId) && s == settings[userId]
      ensures consents == old(consents)
    {
      if userId !in settings {
        settings := settings[userId := DefaultSettings];
      }
      s := settings[userId];
    }

    /** The `consent_log` rows `update_privacy_settings` adds, one per changed key. */
    method AddUpdatedConsents(userId: int, changed: seq<Change>, now: int)
      requires ConsentIdsInOrder(consents)
      modifies this
      ensures consents == old(consents) + ConsentRows(|old(consents)|, userId, changed, now)
      ensures ConsentIdsInOrder(consents) && settings == old(settings)
    {
      var j := 0;
      while j < |changed|
        invariant j <= |changed|
        invariant consents == old(consents) + ConsentRows(|old(consents)|, userId, changed[..j], now)
        invariant ConsentIdsInOrder(consents) && settings == old(settings)
      {
        assert changed[..j + 1][..j] == changed[..j];
        consents := consents + [ConsentRow(|consents| + 1, userId, now, changed[j].key, None, "updated")];
        j := j + 1;
      }
      assert changed[..j] == changed;
    }

    /** The part of `update_privacy_settings` after the body turned out to
        be an object and the user's row `s0` exists: apply the body, and
        when anything changed store the row, log it and record consents. */
    method ApplySettings(p: Primitives, userId: int, s0: Settings, fields: map<string, Json>, now: int)
      returns (reply: Reply, changed: seq<Change>)
      requires Valid() && userId in settings && settings[userId] == s0
      modifies this, activity
      ensures Valid() && changed == Diff(s0, fields, 4)
      ensures changed == [] ==>
                reply == Reply(200, "No changes") && settings == old(settings)
                && consents == old(consents) && activity.rows == old(activity.rows)
      ensures changed != [] ==>
                reply == Reply(200, "Privacy settings updated")
                && settings == old(settings)[userId := Applied(s0, fields, 4)]
                && activity.rows == old(activity.rows)
                     + [ActivityChain.NewRow(p, old(activity.rows), userId, "PRIVACY_UPDATED",
                                             Some(PrivacyMeta(changed)), now)]
                && consents == old(consents) + ConsentRows(|old(consents)|, userId, changed, now)
    {
      var s;
      s, changed := ApplyBody(s0, fields);
      if changed == [] {
        return Reply(200, "No changes"), changed;
      }
      settings := settings[userId := s];
      activity.Append(p, userId, "PRIVACY_UPDATED", Some(PrivacyMeta(changed)), now);
      AddUpdatedConsents(userId, changed, now);
      reply := Reply(200, "Privacy settings updated");
    }

    /** `update_privacy_settings`; `body` is None when the body is not JSON. */
    method UpdatePrivacySettings(p: Primitives, userId: int, body: Option<Json>, now: int)
      returns (reply: Reply, changed: seq<Change>)
      requires Valid()
      modifies this, activity
      ensures Valid()
      ensures body.None? ==>
                reply == Reply(400, "Invalid JSON body") && changed == [] && settings == old(settings)
                && consents == old(consents) && activity.rows == old(activity.rows)
      ensures body.Some? && !OrEmpty(body).JObj? ==>
                reply == NonObjectReply(OrEmpty(body)) && changed == []
                && settings == Ensured(old(settings), userId)
                && consents == old(consents) && activity.rows == old(activity.rows)
      ensures body.Some? && OrEmpty(body).JObj? ==>
                var fields := OrEmpty(body).fields;
                var s0 := Ensured(old(settings), userId)[userId];
                changed == Diff(s0, fields, 4)
                && (changed == [] ==>
                      reply == Reply(200, "No changes") && settings == Ensured(old(settings), userId)
                      && consents == old(consents) && activity.rows == old(activity.rows))
                && (changed != [] ==>
                      reply == Reply(200, "Privacy settings updated")
                      && settings == Ensured(old(settings), userId)[userId := Applied(s0, fields, 4)]
                      && activity.rows == old(activity.rows)
                           + [ActivityChain.NewRow(p, old(activity.rows), userId, "PRIVACY_UPDATED",
                                                   Some(PrivacyMeta(changed)), now)]
                      && consents == old(consents) + ConsentRows(|old(consents)|, userId, changed, now))
    {
      if body.None? {
        return Reply(400, "Invalid JSON body"), [];
      }
      var data := OrEmpty(body);
      var s := EnsureSettings(userId);
      if !data.JObj? {
        return NonObjectReply(data), [];
      }
      reply, changed := ApplySettings(p, userId, s, data.fields, now);
    }

    /** The insert and the activity row of an accepted consent. */
    method AddConsent(p: Primitives, userId: int, c: ConsentRequest, now: int)
      requires Valid() && c.Consent?
      modifies this, activity
      ensures Valid() && settings == old(settings)
      ensures consents == old(consents) + [ConsentRow(|old(consents)| + 1, userId, now, c.item, c.version, c.action)]
      ensures activity.rows == old(activity.rows)
                + [ActivityChain.NewRow(p, old(activity.rows), userId, ConsentEvent(c), Some(ConsentMeta(c)), now)]
    {
      consents := consents + [ConsentRow(|consents| + 1, userId, now, c.item, c.version, c.action)];
      activity.Append(p, userId, ConsentEvent(c), Some(ConsentMeta(c)), now);
    }

    /** `record_consent`; `body` is None when the body is not JSON. */
    method RecordConsent(p: Primitives, userId: int, body: Option<Json>, now: int) returns (reply: Reply)
      requires Valid()
      modifies this, activity
      ensures Valid() && settings == old(settings)
      ensures body.None? ==>
                reply == Reply(400, "Invalid JSON body") && consents == old(consents)
                && activity.rows == old(activity.rows)
      ensures body.Some? ==>
                var c := ReadConsent(body.value);
                (c.BadBody? ==> reply == Raised(500, c.exception))
                && (c.InvalidPayload? ==> reply == Reply(400, "Invalid consent payload"))
                && (!c.Consent? ==> consents == old(consents) && activity.rows == old(activity.rows))
                && (c.Consent? ==>
                      reply == Reply(201, "Consent recorded")
                      && consents == old(consents) + [ConsentRow(|old(consents)| + 1, userId, now, c.item, c.version, c.action)]
                      && activity.rows == old(activity.rows)
                           + [ActivityChain.NewRow(p, old(activity.rows), userId, ConsentEvent(c), Some(ConsentMeta(c)), now)])
    {
      if body.None? {
        return Reply(400, "Invalid JSON body");
      }
      var c := ReadConsent(body.value);
      if c.BadBody? {
        reply := Raised(500, c.exception);
      } else if c.InvalidPayload? {
        reply := Reply(400, "Invalid consent payload");
      } else {
        AddConsent(p, userId, c, now);
        reply := Reply(201, "Consent recorded");
      }
    }
  }
}
