/** The tamper-evident admin audit log: each admin's rows form a hash chain
    whose links are SHA-256 digests of canonical JSON over the row's plaintext
    fields and the previous row's digest. The table is a sequence of rows in
    ascending id order. */
module AdminChain {
  import opened Base
  import opened Json
  import opened Crypto

  /** What the handlers pass as `target_id`: some pass text, some an integer id. */
  datatype TargetId = TStr(s: string) | TInt(i: int)

  datatype AdminRow = AdminRow(
    id: nat,
    adminId: int,
    ts: int,
    action: string,
    targetType: Option<string>,
    targetId: Option<string>,
    metaEnc: Option<Bytes>,
    justificationEnc: Option<Bytes>,
    prevHash: Option<string>,
    rowHash: Option<string>)

  datatype BreakReason = HashMismatch | PrevLinkMismatch

  /** `verify_admin_chain`'s answer: ok with the number of rows, or the first
      bad row with the number of rows verified before it. */
  datatype ChainReport = Verified(count: nat) | Broken(id: nat, reason: BreakReason, count: nat)

  /** Row ids are 1, 2, 3, ... in table order (autoincrement, rows never deleted). */
  predicate IdsInOrder(rows: seq<AdminRow>) {
    forall i :: 0 <= i < |rows| ==> rows[i].id == i + 1
  }

  // ---------------------------------------------------------------- hashing

  /** `_json_canon`: canonical JSON of `obj or {}`. */
  function JsonCanon(p: Primitives, obj: Option<Json>): string {
    p.dumps(OrEmpty(obj))
  }

  /** Python's `x or ""` for an optional text field. */
  function OrEmptyText(x: Option<string>): string {
    if x.None? then "" else x.value
  }

  /** Python's `x or None`: the empty string reads as None. */
  function OrNone(x: Option<string>): Option<string> {
    if x == Some("") then None else x
  }

  /** The JSON value the hash payload holds for `target_id or ""`. */
  function TargetJson(t: Option<Json>): Json {
    if t.None? || Falsy(t.value) then JStr("") else t.value
  }

  /** The object `compute_hash_plain` serialises and digests. */
  function Payload(p: Primitives, adminId: int, ts: int, action: string,
                   targetType: Option<string>, targetId: Option<Json>,
                   metaJson: string, justification: Option<string>,
                   prevHash: Option<string>): Json
  {
    JObj(map[
      "admin_id" := JInt(adminId),
      "ts" := JStr(IsoSeconds(p, ts)),
      "action" := JStr(action),
      "target_type" := JStr(OrEmptyText(targetType)),
      "target_id" := TargetJson(targetId),
      "meta_json" := JStr(metaJson),
      "justification" := JStr(OrEmptyText(justification)),
      "prev_hash" := JStr(OrEmptyText(prevHash))])
  }

  /** `AdminActivityLog.compute_hash_plain`. */
  function ComputeHashPlain(p: Primitives, adminId: int, ts: int, action: string,
                            targetType: Option<string>, targetId: Option<Json>,
                            metaJson: string, justification: Option<string>,
                            prevHash: Option<string>): string
  {
    p.sha256(p.dumps(Payload(p, adminId, ts, action, targetType, targetId, metaJson, justification, prevHash)))
  }

  /** None and "" are hashed alike in every optional field, and the timestamp
      is hashed at second precision only. */
  lemma ComputeHashNormalises(p: Primitives, adminId: int, ts: int, action: string,
                              targetType: Option<string>, targetId: Option<Json>,
                              metaJson: string, justification: Option<string>,
                              prevHash: Option<string>)
    ensures ComputeHashPlain(p, adminId, ts, action, targetType, targetId, metaJson, justification, prevHash)
         == ComputeHashPlain(p, adminId, TruncateToSecond(ts), action,
                             if targetType == Some("") then None else targetType,
                             if targetId == Some(JStr("")) then None else targetId,
                             metaJson,
                             if justification == Some("") then None else justification,
                             OrNone(prevHash))
  {
    IsoSecondsOfTruncated(p, ts);
  }

  // ------------------------------------------------------ stored row fields

  /** The `meta` property: decrypted canonical JSON, {} when empty or unreadable. */
  function Meta(p: Primitives, r: AdminRow): Json {
    var txt := FDecrypt(p, r.metaEnc.GetOr([]));
    if txt == "" then EmptyObject else p.loads(txt).GetOr(EmptyObject)
  }

  /** The `justification` property. */
  function Justification(p: Primitives, r: AdminRow): string {
    FDecrypt(p, r.justificationEnc.GetOr([]))
  }

  /** The text a `String(64)` column holds for the value written to it. */
  function StoredTargetId(t: Option<TargetId>): Option<string> {
    match t
    case None => None
    case Some(TStr(s)) => Some(s)
    case Some(TInt(i)) => Some(IntToString(i))
  }

  /** The digest `verify_admin_chain` expects for row `r` after `prev`. */
  function ExpectedHash(p: Primitives, r: AdminRow, prev: Option<string>): string {
    ComputeHashPlain(p, r.adminId, r.ts, r.action, r.targetType,
                     if r.targetId.None? then None else Some(JStr(r.targetId.value)),
                     JsonCanon(p, Some(Meta(p, r))), Some(Justification(p, r)), prev)
  }

  // ------------------------------------------------------------- appending

  /** The query `filter_by(admin_id=...).order_by(id)`: one admin's rows, in id order. */
  function RowsOf(rows: seq<AdminRow>, adminId: int): (r: seq<AdminRow>)
    ensures |r| <= |rows|
    ensures forall x :: x in r <==> x in rows && x.adminId == adminId
  {
    if rows == [] then []
    else RowsOf(rows[..|rows| - 1], adminId)
         + (if rows[|rows| - 1].adminId == adminId then [rows[|rows| - 1]] else [])
  }

  /** The row that `order_by(desc(id)).first()` finds for an admin. */
  function LastRowOf(rows: seq<AdminRow>, adminId: int): Option<AdminRow> {
    if rows == [] then None
    else if rows[|rows| - 1].adminId == adminId then Some(rows[|rows| - 1])
    else LastRowOf(rows[..|rows| - 1], adminId)
  }

  /** The `prev` that `append_admin_activity` links a new row to. */
  function PrevFor(rows: seq<AdminRow>, adminId: int): Option<string> {
    match LastRowOf(rows, adminId)
    case None => None
    case Some(last) => last.rowHash
  }

  /** The row `append_admin_activity` adds, with `target_id` hashed in the form
      the column stores it (see AdminChain.NewRowAsWritten for the source as written). */
  function NewRow(p: Primitives, rows: seq<AdminRow>, adminId: int, action: string,
                  targetType: Option<string>, targetId: Option<TargetId>,
                  meta: Option<Json>, justification: Option<string>, now: int): AdminRow
  {
    var prev := PrevFor(rows, adminId);
    var ts := TruncateToSecond(now);
    var metaJson := JsonCanon(p, meta);
    var justText := OrEmptyText(justification);
    var stored := StoredTargetId(targetId);
    AdminRow(|rows| + 1, adminId, ts, action, targetType, stored,
             Some(FEncrypt(p, Some(metaJson))), Some(FEncrypt(p, Some(justText))), prev,
             Some(ComputeHashPlain(p, adminId, ts, action, targetType,
                                   if stored.None? then None else Some(JStr(stored.value)),
                                   metaJson, Some(justText), prev)))
  }

  /** The JSON value a handler's `target_id` argument is hashed as. */
  function TargetIdJson(t: Option<TargetId>): Option<Json> {
    match t
    case None => None
    case Some(TStr(s)) => Some(JStr(s))
    case Some(TInt(i)) => Some(JInt(i))
  }

  /** `append_admin_activity` exactly as written: the digest covers `target_id`
      as the caller passed it, an integer for the login and role-change events. */
  function NewRowAsWritten(p: Primitives, rows: seq<AdminRow>, adminId: int, action: string,
                           targetType: Option<string>, targetId: Option<TargetId>,
                           meta: Option<Json>, justification: Option<string>, now: int): AdminRow
  {
    var prev := PrevFor(rows, adminId);
    var ts := TruncateToSecond(now);
    var metaJson := JsonCanon(p, meta);
    var justText := OrEmptyText(justification);
    AdminRow(|rows| + 1, adminId, ts, action, targetType, StoredTargetId(targetId),
             Some(FEncrypt(p, Some(metaJson))), Some(FEncrypt(p, Some(justText))), prev,
             Some(ComputeHashPlain(p, adminId, ts, action, targetType, TargetIdJson(targetId),
                                   metaJson, Some(justText), prev)))
  }

  // ------------------------------------------------------------- verifying

  /** The checks `verify_admin_chain` makes of one row, in its order: the
      recomputed digest first, then the prev link. */
  function Check(p: Primitives, r: AdminRow, prev: Option<string>): Option<BreakReason> {
    if r.rowHash != Some(ExpectedHash(p, r, prev)) then Some(HashMismatch)
    else if r.prevHash != OrNone(prev) then Some(PrevLinkMismatch)
    else None
  }

  /** `verify_admin_chain` over one admin's rows (in ascending id order), from
      a given previous digest and count. */
  function VerifyFrom(p: Primitives, rows: seq<AdminRow>, prev: Option<string>, count: nat): ChainReport
    decreases |rows|
  {
    if rows == [] then Verified(count)
    else
      match Check(p, rows[0], prev)
      case Some(reason) => Broken(rows[0].id, reason, count)
      case None => VerifyFrom(p, rows[1..], rows[0].rowHash, count + 1)
  }

  /** Row `r` is correctly linked after `prev`. */
  predicate Links(p: Primitives, r: AdminRow, prev: Option<string>) {
    r.rowHash == Some(ExpectedHash(p, r, prev)) && r.prevHash == OrNone(prev)
  }

  /** A row passes both checks exactly when it is linked; a prev-link
      failure is only reported for a row whose digest is right. */
  lemma CheckMeansLinks(p: Primitives, r: AdminRow, prev: Option<string>)
    ensures Check(p, r, prev).None? <==> Links(p, r, prev)
    ensures Check(p, r, prev) == Some(HashMismatch) <==> r.rowHash != Some(ExpectedHash(p, r, prev))
    ensures Check(p, r, prev) == Some(PrevLinkMismatch) ==> r.prevHash != OrNone(prev)
  {
  }

  /** Every row of `rows` is correctly linked to its predecessor, the first to `prev`. */
  predicate Chained(p: Primitives, rows: seq<AdminRow>, prev: Option<string>)
    decreases |rows|
  {
    rows == [] || (Links(p, rows[0], prev) && Chained(p, rows[1..], rows[0].rowHash))
  }

  /** The digest the next row must link to after `rows`. */
  function LastHash(rows: seq<AdminRow>, prev: Option<string>): Option<string> {
    if rows == [] then prev else rows[|rows| - 1].rowHash
  }

  lemma {:induction false} ChainedVerifies(p: Primitives, rows: seq<AdminRow>, prev: Option<string>, count: nat)
    requires Chained(p, rows, prev)
    ensures VerifyFrom(p, rows, prev, count) == Verified(count + |rows|)
    decreases |rows|
  {
    if rows != [] {
      CheckMeansLinks(p, rows[0], prev);
      ChainedVerifies(p, rows[1..], rows[0].rowHash, count + 1);
    }
  }

  /** The converse: a chain that verifies is linked throughout, so any
      tampered or mislinked row is reported. */
  lemma {:induction false} VerifiedMeansChained(p: Primitives, rows: seq<AdminRow>, prev: Option<string>, count: nat)
    requires VerifyFrom(p, rows, prev, count).Verified?
    ensures Chained(p, rows, prev)
    decreases |rows|
  {
    if rows != [] {
      CheckMeansLinks(p, rows[0], prev);
      VerifiedMeansChained(p, rows[1..], rows[0].rowHash, count + 1);
    }
  }

  /** Verification succeeds exactly on linked chains. */
  lemma VerifiesIffChained(p: Primitives, rows: seq<AdminRow>, prev: Option<string>, count: nat)
    ensures VerifyFrom(p, rows, prev, count).Verified? <==> Chained(p, rows, prev)
  {
    if Chained(p, rows, prev) {
      ChainedVerifies(p, rows, prev, count);
    }
    if VerifyFrom(p, rows, prev, count).Verified? {
      VerifiedMeansChained(p, rows, prev, count);
    }
  }

  /** A failure names the first row that is not linked, with the number of
      rows verified before it and the first check that row fails. */
  lemma {:induction false} VerifyReportsFirstBreak(p: Primitives, rows: seq<AdminRow>, prev: Option<string>,
                                                   count: nat, id: nat, reason: BreakReason, at: nat)
    requires VerifyFrom(p, rows, prev, count) == Broken(id, reason, at)
    ensures count <= at < count + |rows|
    ensures rows[at - count].id == id
    ensures Chained(p, rows[..at - count], prev)
    ensures Check(p, rows[at - count], LastHash(rows[..at - count], prev)) == Some(reason)
    decreases |rows|
  {
    var r := rows[0];
    if Check(p, r, prev).Some? {
      assert rows[..0] == [];
    } else {
      CheckMeansLinks(p, r, prev);
      VerifyReportsFirstBreak(p, rows[1..], r.rowHash, count + 1, id, reason, at);
      var k := at - count;
      ChainedCons(p, rows, prev, k);
      assert rows[1..][k - 1] == rows[k];
    }
  }

  /** A linked first row followed by a chained run is a chained prefix. */
  lemma ChainedCons(p: Primitives, rows: seq<AdminRow>, prev: Option<string>, k: nat)
    requires 1 <= k <= |rows|
    requires Links(p, rows[0], prev) && Chained(p, rows[1..][..k - 1], rows[0].rowHash)
    ensures Chained(p, rows[..k], prev)
    ensures LastHash(rows[..k], prev) == LastHash(rows[1..][..k - 1], rows[0].rowHash)
  {
    assert rows[..k][0] == rows[0];
    assert rows[..k][1..] == rows[1..][..k - 1];
  }

  lemma {:induction false} ChainedSnoc(p: Primitives, rows: seq<AdminRow>, prev: Option<string>, r: AdminRow)
    requires Chained(p, rows, prev)
    requires Links(p, r, LastHash(rows, prev))
    ensures Chained(p, rows + [r], prev)
    decreases |rows|
  {
    if rows == [] {
      assert (rows + [r])[1..] == [];
    } else {
      assert (rows + [r])[1..] == rows[1..] + [r];
      ChainedSnoc(p, rows[1..], rows[0].rowHash, r);
    }
  }

  lemma {:induction false} RowsOfSnoc(rows: seq<AdminRow>, r: AdminRow, adminId: int)
    ensures RowsOf(rows + [r], adminId) == RowsOf(rows, adminId) + (if r.adminId == adminId then [r] else [])
  {
    assert (rows + [r])[..|rows|] == rows;
  }

  /** The row the append links to is the last row of the admin's chain. */
  lemma {:induction false} PrevForIsLastHash(rows: seq<AdminRow>, adminId: int)
    ensures PrevFor(rows, adminId) == LastHash(RowsOf(rows, adminId), None)
    decreases |rows|
  {
    if rows != [] {
      var init := rows[..|rows| - 1];
      assert rows == init + [rows[|rows| - 1]];
      RowsOfSnoc(init, rows[|rows| - 1], adminId);
      if rows[|rows| - 1].adminId != adminId {
        PrevForIsLastHash(init, adminId);
      }
    }
  }

  /** The previous row of the same admin is the one with the highest id. */
  lemma {:induction false} LastRowOfIsHighest(rows: seq<AdminRow>, adminId: int)
    requires IdsInOrder(rows)
    ensures LastRowOf(rows, adminId).None? <==> forall x :: x in rows ==> x.adminId != adminId
    ensures LastRowOf(rows, adminId).Some? ==>
              var last := LastRowOf(rows, adminId).value;
              last in rows && last.adminId == adminId &&
              forall x :: x in rows && x.adminId == adminId ==> x.id <= last.id
    decreases |rows|
  {
    if rows != [] {
      var init := rows[..|rows| - 1];
      assert rows == init + [rows[|rows| - 1]];
      LastRowOfIsHighest(init, adminId);
    }
  }

  /** The appended row's digest covers its own stored fields and `prev`, so
      the verifier recomputes exactly that digest for it. */
  lemma NewRowLinks(p: Primitives, rows: seq<AdminRow>, adminId: int, action: string,
                    targetType: Option<string>, targetId: Option<TargetId>,
                    meta: Option<Json>, justification: Option<string>, now: int)
    requires Sound(p)
    ensures var r := NewRow(p, rows, adminId, action, targetType, targetId, meta, justification, now);
            r.prevHash == PrevFor(rows, adminId) &&
            Meta(p, r) == OrEmpty(meta) &&
            Justification(p, r) == OrEmptyText(justification) &&
            r.rowHash == Some(ExpectedHash(p, r, PrevFor(rows, adminId)))
  {
    var r := NewRow(p, rows, adminId, action, targetType, targetId, meta, justification, now);
    var metaJson := JsonCanon(p, meta);
    var justText := OrEmptyText(justification);
    FDecryptInverts(p, Some(metaJson));
    FDecryptInverts(p, Some(justText));
    assert |p.dumps(OrEmpty(meta))| > 0 && p.loads(p.dumps(OrEmpty(meta))) == Some(OrEmpty(meta));
    assert Meta(p, r) == OrEmpty(meta);
    OrEmptyIdempotent(meta);
    assert JsonCanon(p, Some(Meta(p, r))) == metaJson;
    IsoSecondsOfTruncated(p, now);
  }

  /** Appending links the new row after the admin's chain, given that the chain
      is correctly linked so far. */
  lemma NewRowExtendsChain(p: Primitives, rows: seq<AdminRow>, adminId: int, action: string,
                           targetType: Option<string>, targetId: Option<TargetId>,
                           meta: Option<Json>, justification: Option<string>, now: int)
    requires Sound(p)
    requires Chained(p, RowsOf(rows, adminId), None)
    requires forall x :: x in rows ==> x.rowHash.Some? && x.rowHash != Some("")
    ensures var r := NewRow(p, rows, adminId, action, targetType, targetId, meta, justification, now);
            Chained(p, RowsOf(rows + [r], adminId), None)
  {
    var r := NewRow(p, rows, adminId, action, targetType, targetId, meta, justification, now);
    NewRowLinks(p, rows, adminId, action, targetType, targetId, meta, justification, now);
    PrevForIsLastHash(rows, adminId);
    var prev := PrevFor(rows, adminId);
    var mine := RowsOf(rows, adminId);
    if mine != [] {
      assert mine[|mine| - 1] in rows;
    }
    assert OrNone(prev) == prev;
    ChainedSnoc(p, mine, None, r);
    RowsOfSnoc(rows, r, adminId);
  }

  /** The table every sequence of appends (from an empty table) produces. */
  datatype AdminEvent = AdminEvent(adminId: int, action: string, targetType: Option<string>,
                                   targetId: Option<TargetId>, meta: Option<Json>,
                                   justification: Option<string>, now: int)

  function Appends(p: Primitives, events: seq<AdminEvent>): (rows: seq<AdminRow>)
    ensures |rows| == |events|
    decreases |events|
  {
    if events == [] then []
    else
      var rows := Appends(p, events[..|events| - 1]);
      var e := events[|events| - 1];
      rows + [NewRow(p, rows, e.adminId, e.action, e.targetType, e.targetId, e.meta, e.justification, e.now)]
  }

  /** Number of events by one admin. */
  function CountFor(events: seq<AdminEvent>, adminId: int): nat {
    if events == [] then 0
    else CountFor(events[..|events| - 1], adminId) + (if events[|events| - 1].adminId == adminId then 1 else 0)
  }

  lemma {:induction false} AppendsShape(p: Primitives, events: seq<AdminEvent>)
    requires Sound(p)
    ensures var rows := Appends(p, events);
            IdsInOrder(rows) && forall x :: x in rows ==> x.rowHash.Some? && x.rowHash != Some("")
    decreases |events|
  {
    if events != [] {
      AppendsShape(p, events[..|events| - 1]);
      var rows := Appends(p, events);
      assert DigestNonEmpty(p);
      assert rows[|rows| - 1].rowHash.Some? && rows[|rows| - 1].rowHash != Some("");
    }
  }

  lemma {:induction false} AppendsChained(p: Primitives, events: seq<AdminEvent>, adminId: int)
    requires Sound(p)
    ensures var rows := Appends(p, events);
            Chained(p, RowsOf(rows, adminId), None) && |RowsOf(rows, adminId)| == CountFor(events, adminId)
    decreases |events|
  {
    if events != [] {
      var init := events[..|events| - 1];
      var e := events[|events| - 1];
      var rows := Appends(p, init);
      AppendsChained(p, init, adminId);
      var r := NewRow(p, rows, e.adminId, e.action, e.targetType, e.targetId, e.meta, e.justification, e.now);
      RowsOfSnoc(rows, r, adminId);
      if e.adminId == adminId {
        AppendsShape(p, init);
        NewRowExtendsChain(p, rows, adminId, e.action, e.targetType, e.targetId, e.meta, e.justification, e.now);
      } else {
        assert RowsOf(rows, adminId) + [] == RowsOf(rows, adminId);
      }
    }
  }

  /** Any sequence of appends verifies, for every admin, with count = the
      number of that admin's appends. */
  lemma AppendsVerify(p: Primitives, events: seq<AdminEvent>, adminId: int)
    requires Sound(p)
    ensures VerifyFrom(p, RowsOf(Appends(p, events), adminId), None, 0) == Verified(CountFor(events, adminId))
  {
    AppendsChained(p, events, adminId);
    ChainedVerifies(p, RowsOf(Appends(p, events), adminId), None, 0);
  }

  /** Chains are per admin: a row appended for one admin leaves every other
      admin's verification result as it was. */
  lemma AppendLeavesOtherChains(p: Primitives, rows: seq<AdminRow>, r: AdminRow, other: int)
    requires r.adminId != other
    ensures VerifyFrom(p, RowsOf(rows + [r], other), None, 0) == VerifyFrom(p, RowsOf(rows, other), None, 0)
  {
    RowsOfSnoc(rows, r, other);
    assert RowsOf(rows, other) + [] == RowsOf(rows, other);
  }

  /** The source as written: a single event whose `target_id` is an integer
      already fails verification, at that row, with a hash mismatch. */
  lemma IntTargetIdBreaksChain(p: Primitives, adminId: int, action: string, targetType: Option<string>,
                               i: int, meta: Option<Json>, justification: Option<string>, now: int)
    requires Sound(p) && HashInjective(p)
    ensures var r := NewRowAsWritten(p, [], adminId, action, targetType, Some(TInt(i)), meta, justification, now);
            VerifyFrom(p, [r], None, 0) == Broken(1, HashMismatch, 0)
  {
    var r := NewRowAsWritten(p, [], adminId, action, targetType, Some(TInt(i)), meta, justification, now);
    var good := NewRow(p, [], adminId, action, targetType, Some(TInt(i)), meta, justification, now);
    NewRowLinks(p, [], adminId, action, targetType, Some(TInt(i)), meta, justification, now);
    assert Meta(p, r) == Meta(p, good) && Justification(p, r) == Justification(p, good);
    assert ExpectedHash(p, r, None) == ExpectedHash(p, good, None);
    var ts := TruncateToSecond(now);
    var metaJson := JsonCanon(p, meta);
    var justText := OrEmptyText(justification);
    var written := Payload(p, adminId, ts, action, targetType, Some(JInt(i)), metaJson, Some(justText), None);
    var stored := Payload(p, adminId, ts, action, targetType, Some(JStr(IntToString(i))), metaJson, Some(justText), None);
    NatToStringDigits(if i < 0 then -i else i);
    assert TargetJson(Some(JStr(IntToString(i)))) == JStr(IntToString(i));
    assert written.fields["target_id"] != stored.fields["target_id"];
    if p.sha256(p.dumps(written)) == p.sha256(p.dumps(stored)) {
      DumpsInjective(p, written, stored);
      assert false;
    }
  }

  // ---------------------------------------------------------------- table

  /** The `admin_activity_log` table. */
  class AdminActivityLog {
    var rows: seq<AdminRow>

    ghost predicate Valid()
      reads this
    {
      IdsInOrder(rows)
    }

    constructor ()
      ensures Valid() && rows == []
    {
      rows := [];
    }

    /** `append_admin_activity`, with the current time as a parameter. */
    method Append(p: Primitives, adminId: int, action: string, targetType: Option<string>,
                  targetId: Option<TargetId>, meta: Option<Json>, justification: Option<string>, now: int)
      returns (row: AdminRow)
      requires Valid()
      modifies this
      ensures Valid()
      ensures row == NewRow(p, old(rows), adminId, action, targetType, targetId, meta, justification, now)
      ensures rows == old(rows) + [row]
    {
      var prev := PrevFor(rows, adminId);
      var tsNow := TruncateToSecond(now);
      var metaJson := JsonCanon(p, meta);
      var justificationText := OrEmptyText(justification);
      var stored := StoredTargetId(targetId);
      var rowHash := ComputeHashPlain(p, adminId, tsNow, action, targetType,
                                      if stored.None? then None else Some(JStr(stored.value)),
                                      metaJson, Some(justificationText), prev);
      row := AdminRow(|rows| + 1, adminId, tsNow, action, targetType, stored,
                      Some(FEncrypt(p, Some(metaJson))), Some(FEncrypt(p, Some(justificationText))),
                      prev, Some(rowHash));
      rows := rows + [row];
    }

    /** `verify_admin_chain`: walks the admin's rows in ascending id order. */
    method VerifyAdminChain(p: Primitives, adminId: int) returns (report: ChainReport)
      ensures report == VerifyFrom(p, RowsOf(rows, adminId), None, 0)
      ensures report.Verified? <==> Chained(p, RowsOf(rows, adminId), None)
    {
      var mine := RowsOf(rows, adminId);
      var prev: Option<string> := None;
      var count: nat := 0;
      while count < |mine|
        invariant count <= |mine|
        invariant VerifyFrom(p, mine, None, 0) == VerifyFrom(p, mine[count..], prev, count)
      {
        var r := mine[count];
        assert mine[count..][0] == r && mine[count..][1..] == mine[count + 1..];
        var expected := ExpectedHash(p, r, prev);
        if r.rowHash != Some(expected) {
          report := Broken(r.id, HashMismatch, count);
          VerifiesIffChained(p, mine, None, 0);
          return;
        }
        if r.prevHash != OrNone(prev) {
          report := Broken(r.id, PrevLinkMismatch, count);
          VerifiesIffChained(p, mine, None, 0);
          return;
        }
        prev := r.rowHash;
        count := count + 1;
      }
      report := Verified(count);
      VerifiesIffChained(p, mine, None, 0);
    }
  }
}
