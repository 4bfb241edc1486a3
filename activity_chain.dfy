/** The tamper-evident user activity log: each user's rows form a hash chain
    over the row's user, second-precision timestamp, event, decrypted meta
    and the previous row's digest. The table is a sequence of rows in
    ascending id order. */
module ActivityChain {
  import opened Base
  import opened Json
  import opened Crypto

  datatype ActivityRow = ActivityRow(
    id: nat,
    userId: int,
    ts: Option<int>,
    event: string,
    metaEnc: Option<Bytes>,
    prevHash: Option<string>,
    rowHash: Option<string>)

  datatype BreakReason = PrevHashMismatch | RowHashMismatch

  /** `verify_chain`'s answer: ok with the number of rows, or the first bad
      row's id and the reason. */
  datatype ChainReport = Verified(count: nat) | Broken(id: nat, reason: BreakReason)

  predicate IdsInOrder(rows: seq<ActivityRow>) {
    forall i :: 0 <= i < |rows| ==> rows[i].id == i + 1
  }

  /** Python's `x or ""` and `x or None` for an optional digest. */
  function OrEmptyText(x: Option<string>): string {
    if x.None? then "" else x.value
  }

  function OrNone(x: Option<string>): Option<string> {
    if x == Some("") then None else x
  }

  /** The `EncryptedJSON` column read back: NULL gives {}, a ciphertext its
      decrypted JSON; the `meta` property then applies `or {}`. */
  function StoredMeta(p: Primitives, r: ActivityRow): Json {
    OrEmpty(Some(if r.metaEnc.None? then EmptyObject else DecryptJson(p, r.metaEnc.value)))
  }

  /** What the `EncryptedJSON` column writes for an assigned value. */
  function BindMeta(p: Primitives, value: Option<Json>): Option<Bytes> {
    if value.None? then None else Some(EncryptJson(p, value))
  }

  /** The object `compute_hash` serialises: a timestamp that is not set yet
      is hashed as null. */
  function Payload(p: Primitives, userId: int, ts: Option<int>, event: string,
                   meta: Json, prevHash: Option<string>): Json
  {
    JObj(map[
      "user_id" := JInt(userId),
      "ts" := (if ts.None? then JNull else JStr(IsoSeconds(p, ts.value))),
      "event" := JStr(event),
      "meta" := meta,
      "prev_hash" := JStr(OrEmptyText(prevHash))])
  }

  /** `ActivityLog.compute_hash` for a row with the given field values. */
  function ComputeHash(p: Primitives, userId: int, ts: Option<int>, event: string,
                       meta: Json, prevHash: Option<string>): string
  {
    p.sha256(p.dumps(Payload(p, userId, ts, event, meta, prevHash)))
  }

  /** The digest covers the timestamp at second precision only, and a missing
      previous digest is hashed like the empty one. */
  lemma ComputeHashNormalises(p: Primitives, userId: int, ts: int, event: string, meta: Json,
                              prevHash: Option<string>)
    ensures ComputeHash(p, userId, Some(ts), event, meta, prevHash)
         == ComputeHash(p, userId, Some(TruncateToSecond(ts)), event, meta, OrNone(prevHash))
    ensures ComputeHash(p, userId, Some(ts), event, meta, None)
         == ComputeHash(p, userId, Some(ts), event, meta, Some(""))
  {
    IsoSecondsOfTruncated(p, ts);
  }

  /** The digest `verify_chain` recomputes for a stored row. */
  function ExpectedHash(p: Primitives, r: ActivityRow, prev: Option<string>): string {
    ComputeHash(p, r.userId, r.ts, r.event, StoredMeta(p, r), prev)
  }

  // ------------------------------------------------------------- appending

  /** `filter_by(user_id=...)` in ascending id order. */
  function RowsOf(rows: seq<ActivityRow>, userId: int): (r: seq<ActivityRow>)
    ensures |r| <= |rows|
    ensures forall x :: x in r <==> x in rows && x.userId == userId
  {
    if rows == [] then []
    else RowsOf(rows[..|rows| - 1], userId)
         + (if rows[|rows| - 1].userId == userId then [rows[|rows| - 1]] else [])
  }

  /** The `row_hash` of the user's latest row (`order_by(desc(id)).first()`), or None. */
  function PrevFor(rows: seq<ActivityRow>, userId: int): Option<string> {
    if rows == [] then None
    else if rows[|rows| - 1].userId == userId then rows[|rows| - 1].rowHash
    else PrevFor(rows[..|rows| - 1], userId)
  }

  /** `append_activity` exactly as written: the digest is computed while the
      new row's `ts` is still unset (the column default fills it in only when
      the row is inserted), so it covers `"ts": null`; the row is stored with
      the insertion time `now`. */
  function NewRowAsWritten(p: Primitives, rows: seq<ActivityRow>, userId: int, event: string,
                           metaDict: Option<Json>, now: int): ActivityRow
  {
    var prev := PrevFor(rows, userId);
    var meta := OrEmpty(metaDict);
    ActivityRow(|rows| + 1, userId, Some(now), event, BindMeta(p, Some(meta)), prev,
                Some(ComputeHash(p, userId, None, event, OrEmpty(Some(meta)), prev)))
  }

  /** `append_activity` with the timestamp set before hashing, as the admin
      chain does: the digest covers the time the row is stored with. */
  function NewRow(p: Primitives, rows: seq<ActivityRow>, userId: int, event: string,
                  metaDict: Option<Json>, now: int): ActivityRow
  {
    var prev := PrevFor(rows, userId);
    var meta := OrEmpty(metaDict);
    ActivityRow(|rows| + 1, userId, Some(now), event, BindMeta(p, Some(meta)), prev,
                Some(ComputeHash(p, userId, Some(now), event, OrEmpty(Some(meta)), prev)))
  }

  /** Meta that is missing, or falsy, is stored and read back as {}; any
      other meta reads back as written. */
  lemma NewRowMeta(p: Primitives, rows: seq<ActivityRow>, userId: int, event: string,
                   metaDict: Option<Json>, now: int)
    requires Sound(p)
    ensures StoredMeta(p, NewRow(p, rows, userId, event, metaDict, now)) == OrEmpty(metaDict)
    ensures metaDict.None? ==> StoredMeta(p, NewRow(p, rows, userId, event, metaDict, now)) == EmptyObject
  {
    OrEmptyIdempotent(metaDict);
    DecryptJsonInverts(p, Some(OrEmpty(metaDict)));
  }

  // ------------------------------------------------------------- verifying

  /** The checks `verify_chain` makes of one row, in its order: the prev
      link first, then the recomputed digest. */
  function Check(p: Primitives, r: ActivityRow, prev: Option<string>): Option<BreakReason> {
    if r.prevHash != OrNone(prev) then Some(PrevHashMismatch)
    else if r.rowHash != Some(ExpectedHash(p, r, prev)) then Some(RowHashMismatch)
    else None
  }

  /** `verify_chain` over one user's rows in ascending id order; `total` is
      `len(rows)`, reported on success. */
  function VerifyFrom(p: Primitives, rows: seq<ActivityRow>, prev: Option<string>, total: nat): ChainReport
    decreases |rows|
  {
    if rows == [] then Verified(total)
    else
      match Check(p, rows[0], prev)
      case Some(reason) => Broken(rows[0].id, reason)
      case None => VerifyFrom(p, rows[1..], rows[0].rowHash, total)
  }

  predicate Links(p: Primitives, r: ActivityRow, prev: Option<string>) {
    r.prevHash == OrNone(prev) && r.rowHash == Some(ExpectedHash(p, r, prev))
  }

  /** A row passes both checks exactly when it is linked; a digest failure is
      only reported for a row whose prev link is right. */
  lemma CheckMeansLinks(p: Primitives, r: ActivityRow, prev: Option<string>)
    ensures Check(p, r, prev).None? <==> Links(p, r, prev)
    ensures Check(p, r, prev) == Some(PrevHashMismatch) <==> r.prevHash != OrNone(prev)
    ensures Check(p, r, prev) == Some(RowHashMismatch) ==> r.rowHash != Some(ExpectedHash(p, r, prev))
  {
  }

  predicate Chained(p: Primitives, rows: seq<ActivityRow>, prev: Option<string>)
    decreases |rows|
  {
    rows == [] || (Links(p, rows[0], prev) && Chained(p, rows[1..], rows[0].rowHash))
  }

  function LastHash(rows: seq<ActivityRow>, prev: Option<string>): Option<string> {
    if rows == [] then prev else rows[|rows| - 1].rowHash
  }

  lemma {:induction false} ChainedVerifies(p: Primitives, rows: seq<ActivityRow>, prev: Option<string>, total: nat)
    requires Chained(p, rows, prev)
    ensures VerifyFrom(p, rows, prev, total) == Verified(total)
    decreases |rows|
  {
    if rows != [] {
      CheckMeansLinks(p, rows[0], prev);
      ChainedVerifies(p, rows[1..], rows[0].rowHash, total);
    }
  }

  /** The converse: a chain that verifies is linked throughout, so any
      tampered or mislinked row is reported. */
  lemma {:induction false} VerifiedMeansChained(p: Primitives, rows: seq<ActivityRow>, prev: Option<string>, total: nat)
    requires VerifyFrom(p, rows, prev, total).Verified?
    ensures Chained(p, rows, prev)
    decreases |rows|
  {
    if rows != [] {
      CheckMeansLinks(p, rows[0], prev);
      VerifiedMeansChained(p, rows[1..], rows[0].rowHash, total);
    }
  }

  /** Verification succeeds exactly on linked chains. */
  lemma VerifiesIffChained(p: Primitives, rows: seq<ActivityRow>, prev: Option<string>, total: nat)
    ensures VerifyFrom(p, rows, prev, total).Verified? <==> Chained(p, rows, prev)
  {
    if Chained(p, rows, prev) {
      ChainedVerifies(p, rows, prev, total);
    }
    if VerifyFrom(p, rows, prev, total).Verified? {
      VerifiedMeansChained(p, rows, prev, total);
    }
  }

  /** A failure names the first row that is not linked and the first check it fails. */
  lemma {:induction false} VerifyReportsFirstBreak(p: Primitives, rows: seq<ActivityRow>, prev: Option<string>,
                                                   total: nat, id: nat, reason: BreakReason)
    requires VerifyFrom(p, rows, prev, total) == Broken(id, reason)
    ensures exists k :: 0 <= k < |rows| && rows[k].id == id && Chained(p, rows[..k], prev)
                        && Check(p, rows[k], LastHash(rows[..k], prev)) == Some(reason)
    decreases |rows|
  {
    var r := rows[0];
    if Check(p, r, prev).Some? {
      assert rows[..0] == [];
      assert rows[0].id == id && Chained(p, rows[..0], prev) && Check(p, rows[0], LastHash(rows[..0], prev)) == Some(reason);
    } else {
      CheckMeansLinks(p, r, prev);
      VerifyReportsFirstBreak(p, rows[1..], r.rowHash, total, id, reason);
      var j :| 0 <= j < |rows[1..]| && rows[1..][j].id == id && Chained(p, rows[1..][..j], r.rowHash)
               && Check(p, rows[1..][j], LastHash(rows[1..][..j], r.rowHash)) == Some(reason);
      var k := j + 1;
      ChainedCons(p, rows, prev, k);
      assert rows[1..][j] == rows[k];
      assert rows[k].id == id && Chained(p, rows[..k], prev) && Check(p, rows[k], LastHash(rows[..k], prev)) == Some(reason);
    }
  }

  /** A linked first row followed by a chained run is a chained prefix. */
  lemma ChainedCons(p: Primitives, rows: seq<ActivityRow>, prev: Option<string>, k: nat)
    requires 1 <= k <= |rows|
    requires Links(p, rows[0], prev) && Chained(p, rows[1..][..k - 1], rows[0].rowHash)
    ensures Chained(p, rows[..k], prev)
    ensures LastHash(rows[..k], prev) == LastHash(rows[1..][..k - 1], rows[0].rowHash)
  {
    assert rows[..k][0] == rows[0];
    assert rows[..k][1..] == rows[1..][..k - 1];
  }

  lemma {:induction false} ChainedSnoc(p: Primitives, rows: seq<ActivityRow>, prev: Option<string>, r: ActivityRow)
    requires Chained(p, rows, prev)
    requires Links(p, r, LastHash(rows, prev))
    ensures Chained(p, rows + [r], prev)
    decreases |rows|
  {
    if rows == [] {
      assert (rows + [r])[1..] == [];
    } else {
      assert (rows + [r])[1..] == rows[1..] + [r];
      ChainedSnoc(p, rows[1..], rows[0].rowHash, r);
    }
  }

  lemma {:induction false} RowsOfSnoc(rows: seq<ActivityRow>, r: ActivityRow, userId: int)
    ensures RowsOf(rows + [r], userId) == RowsOf(rows, userId) + (if r.userId == userId then [r] else [])
  {
    assert (rows + [r])[..|rows|] == rows;
  }

  lemma {:induction false} PrevForIsLastHash(rows: seq<ActivityRow>, userId: int)
    ensures PrevFor(rows, userId) == LastHash(RowsOf(rows, userId), None)
    decreases |rows|
  {
    if rows != [] {
      var init := rows[..|rows| - 1];
      assert rows == init + [rows[|rows| - 1]];
      RowsOfSnoc(init, rows[|rows| - 1], userId);
      if rows[|rows| - 1].userId != userId {
        PrevForIsLastHash(init, userId);
      }
    }
  }

  /** The appended row links to the user's latest row and carries the digest
      the verifier recomputes for it. */
  lemma NewRowLinks(p: Primitives, rows: seq<ActivityRow>, userId: int, event: string,
                    metaDict: Option<Json>, now: int)
    requires Sound(p)
    requires forall x :: x in rows ==> x.rowHash != Some("")
    ensures var r := NewRow(p, rows, userId, event, metaDict, now);
            r.prevHash == PrevFor(rows, userId) && Links(p, r, PrevFor(rows, userId))
  {
    NewRowMeta(p, rows, userId, event, metaDict, now);
    OrEmptyIdempotent(metaDict);
    PrevForIsLastHash(rows, userId);
    var mine := RowsOf(rows, userId);
    if mine != [] {
      assert mine[|mine| - 1] in rows;
    }
  }

  /** The table a sequence of appends (from an empty table) produces. */
  datatype ActivityEvent = ActivityEvent(userId: int, event: string, meta: Option<Json>, now: int)

  function Appends(p: Primitives, events: seq<ActivityEvent>): (rows: seq<ActivityRow>)
    ensures |rows| == |events|
    decreases |events|
  {
    if events == [] then []
    else
      var rows := Appends(p, events[..|events| - 1]);
      var e := events[|events| - 1];
      rows + [NewRow(p, rows, e.userId, e.event, e.meta, e.now)]
  }

  function CountFor(events: seq<ActivityEvent>, userId: int): nat {
    if events == [] then 0
    else CountFor(events[..|events| - 1], userId) + (if events[|events| - 1].userId == userId then 1 else 0)
  }

  lemma {:induction false} AppendsShape(p: Primitives, events: seq<ActivityEvent>)
    requires Sound(p)
    ensures var rows := Appends(p, events);
            IdsInOrder(rows) && forall x :: x in rows ==> x.rowHash.Some? && x.rowHash != Some("")
    decreases |events|
  {
    if events != [] {
      AppendsShape(p, events[..|events| - 1]);
      var rows := Appends(p, events);
      assert DigestNonEmpty(p);
      assert rows[|rows| - 1].rowHash.Some? && rows[|rows| - 1].rowHash != Some("");
    }
  }

  lemma {:induction false} AppendsChained(p: Primitives, events: seq<ActivityEvent>, userId: int)
    requires Sound(p)
    ensures var rows := Appends(p, events);
            Chained(p, RowsOf(rows, userId), None) && |RowsOf(rows, userId)| == CountFor(events, userId)
    decreases |events|
  {
    if events != [] {
      var init := events[..|events| - 1];
      var e := events[|events| - 1];
      var rows := Appends(p, init);
      AppendsChained(p, init, userId);
      var r := NewRow(p, rows, e.userId, e.event, e.meta, e.now);
      RowsOfSnoc(rows, r, userId);
      if e.userId == userId {
        AppendsShape(p, init);
        NewRowLinks(p, rows, userId, e.event, e.meta, e.now);
        PrevForIsLastHash(rows, userId);
        ChainedSnoc(p, RowsOf(rows, userId), None, r);
      } else {
        assert RowsOf(rows, userId) + [] == RowsOf(rows, userId);
      }
    }
  }

  /** A chain built only by appends verifies, for every user, with count =
      the number of that user's appends; an empty chain gives count 0. */
  lemma AppendsVerify(p: Primitives, events: seq<ActivityEvent>, userId: int)
    requires Sound(p)
    ensures var mine := RowsOf(Appends(p, events), userId);
            VerifyFrom(p, mine, None, |mine|) == Verified(CountFor(events, userId))
  {
    AppendsChained(p, events, userId);
    ChainedVerifies(p, RowsOf(Appends(p, events), userId), None, CountFor(events, userId));
  }

  /** Per-user chains are independent. */
  lemma AppendLeavesOtherChains(p: Primitives, rows: seq<ActivityRow>, r: ActivityRow, other: int)
    requires r.userId != other
    ensures RowsOf(rows + [r], other) == RowsOf(rows, other)
  {
    RowsOfSnoc(rows, r, other);
    assert RowsOf(rows, other) + [] == RowsOf(rows, other);
  }

  /** The source as written: the very first row `append_activity` stores
      already fails `verify_chain`, with "row_hash mismatch". */
  lemma AsWrittenFirstRowFails(p: Primitives, userId: int, event: string, metaDict: Option<Json>, now: int)
    requires Sound(p) && HashInjective(p)
    ensures var r := NewRowAsWritten(p, [], userId, event, metaDict, now);
            VerifyFrom(p, [r], None, 1) == Broken(1, RowHashMismatch)
  {
    var r := NewRowAsWritten(p, [], userId, event, metaDict, now);
    var good := NewRow(p, [], userId, event, metaDict, now);
    NewRowMeta(p, [], userId, event, metaDict, now);
    assert StoredMeta(p, r) == StoredMeta(p, good);
    var meta := OrEmpty(Some(OrEmpty(metaDict)));
    var hashed := Payload(p, userId, None, event, meta, None);
    var expected := Payload(p, userId, Some(now), event, StoredMeta(p, r), None);
    assert hashed.fields["ts"] != expected.fields["ts"];
    if p.sha256(p.dumps(hashed)) == p.sha256(p.dumps(expected)) {
      DumpsInjective(p, hashed, expected);
      assert false;
    }
  }

  // ---------------------------------------------------------------- table

  /** The `activity_log` table. */
  class ActivityLog {
    var rows: seq<ActivityRow>

    ghost predicate Valid()
      reads this
    {
      IdsInOrder(rows)
    }

    constructor ()
      ensures Valid() && rows == []
    {
      rows := [];
    }

    /** `append_activity`, with the timestamp set before hashing; `now` is
        the time the row is stored with. */
    method Append(p: Primitives, userId: int, event: string, metaDict: Option<Json>, now: int)
      requires Valid()
      modifies this
      ensures Valid()
      ensures rows == old(rows) + [NewRow(p, old(rows), userId, event, metaDict, now)]
    {
      var prev := PrevFor(rows, userId);
      var meta := OrEmpty(metaDict);
      var rowHash := ComputeHash(p, userId, Some(now), event, OrEmpty(Some(meta)), prev);
      rows := rows + [ActivityRow(|rows| + 1, userId, Some(now), event, BindMeta(p, Some(meta)), prev, Some(rowHash))];
    }

    /** `verify_chain`: walks the user's rows in ascending id order. */
    method VerifyChain(p: Primitives, userId: int) returns (report: ChainReport)
      ensures report == VerifyFrom(p, RowsOf(rows, userId), None, |RowsOf(rows, userId)|)
      ensures report.Verified? <==> Chained(p, RowsOf(rows, userId), None)
    {
      var mine := RowsOf(rows, userId);
      var expectedPrev: Option<string> := None;
      var i := 0;
      while i < |mine|
        invariant i <= |mine|
        invariant VerifyFrom(p, mine, None, |mine|) == VerifyFrom(p, mine[i..], expectedPrev, |mine|)
      {
        var r := mine[i];
        assert mine[i..][0] == r && mine[i..][1..] == mine[i + 1..];
        if r.prevHash != OrNone(expectedPrev) {
          report := Broken(r.id, PrevHashMismatch);
          VerifiesIffChained(p, mine, None, |mine|);
          return;
        }
        var expectedHash := ExpectedHash(p, r, expectedPrev);
        if r.rowHash != Some(expectedHash) {
          report := Broken(r.id, RowHashMismatch);
          VerifiesIffChained(p, mine, None, |mine|);
          return;
        }
        expectedPrev := r.rowHash;
        i := i + 1;
      }
      report := Verified(|mine|);
      VerifiesIffChained(p, mine, None, |mine|);
    }
  }
}
