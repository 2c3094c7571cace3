/**
  The rows of the `File` table and the decisions src/api/s3.ts takes
  over them: which object keys an upload may use, what the storage
  webhook does with each uploaded object, how much unpublished data an
  uploader holds, and how a new upload replaces the rows of its key.

  The table is the map from row id to row. Every route that creates a
  row first deletes the rows with the same file name, so a file name
  names at most one row (`DistinctNames`).
 */
module UploadRules {
  import opened Text

  datatype Status = Pending | Uploaded | Error | Published

  datatype Row = Row(
    fileName: string,
    uploader: string,
    status: Status,
    fileSize: Option<int>,
    errorMessage: Option<string>,
    createdAt: int,
    uploadTime: Option<int>)

  type Table = map<int, Row>

  const GiB := 1024 * 1024 * 1024
  /** Objects larger than this are refused by the webhook. */
  const MaxObjectSize := 2 * GiB
  /** The most an uploader may hold in uploaded, unpublished files. */
  const Quota := 5 * GiB

  const PutEvent := "s3:ObjectCreated:Put"
  const TooLarge := "文件大小超过 2G"
  const DigestMismatch := "文件内容 md5 和文件名不匹配"

  /** No two rows carry the same file name. */
  ghost predicate DistinctNames(rows: Table) {
    forall i, j :: i in rows && j in rows && rows[i].fileName == rows[j].fileName ==> i == j
  }

  /** The `Authorization` header both storage-facing routes demand: exactly `Bearer <TOKEN>`. */
  predicate Authorized(header: Option<string>, secret: string) {
    header == Some("Bearer " + secret)
  }

  // ---------------------------------------------------------------------
  // Object keys: /^[0-9a-f]{32}\.(zip|pdf)$/

  predicate IsHexDigit(ch: char) {
    '0' <= ch <= '9' || 'a' <= ch <= 'f'
  }

  /** The key of an upload: 32 lower-case hex digits, then `.zip` or `.pdf`. */
  predicate ValidKey(key: string) {
    && |key| == 36
    && (forall i :: 0 <= i < 32 ==> IsHexDigit(key[i]))
    && (key[32..] == ".zip" || key[32..] == ".pdf")
  }

  function HexDigit(n: nat): (ch: char)
    requires n < 16
    ensures IsHexDigit(ch)
  {
    "0123456789abcdef"[n]
  }

  function HexValue(ch: char): (n: nat)
    requires IsHexDigit(ch)
    ensures n < 16 && HexDigit(n) == ch
  {
    if ch <= '9' then (ch as int - '0' as int) as nat else (ch as int - 'a' as int + 10) as nat
  }

  /** The key an uploader forms from the 32 nibbles of a digest and an extension. */
  function KeyFor(digest: seq<nat>, pdf: bool): (key: string)
    requires |digest| == 32 && forall i :: 0 <= i < 32 ==> digest[i] < 16
    ensures |key| == 36
  {
    seq(32, i requires 0 <= i < 32 => HexDigit(digest[i])) + (if pdf then ".pdf" else ".zip")
  }

  /** Every key formed from a digest is accepted. */
  lemma KeyForValid(digest: seq<nat>, pdf: bool)
    requires |digest| == 32 && forall i :: 0 <= i < 32 ==> digest[i] < 16
    ensures ValidKey(KeyFor(digest, pdf))
  {
    var key := KeyFor(digest, pdf);
    assert key[32..] == if pdf then ".pdf" else ".zip";
    forall i | 0 <= i < 32 ensures IsHexDigit(key[i]) {
      assert key[i] == HexDigit(digest[i]);
    }
  }

  /** Every accepted key is formed from a digest: its own leading nibbles. */
  lemma ValidKeyIsKeyFor(key: string)
    requires ValidKey(key)
    ensures var digest := seq(32, i requires 0 <= i < 32 => HexValue(key[i]));
      KeyFor(digest, key[32..] == ".pdf") == key
  {
    var digest := seq(32, i requires 0 <= i < 32 => HexValue(key[i]));
    var k := KeyFor(digest, key[32..] == ".pdf");
    assert k[..32] == key[..32];
    assert k[32..] == key[32..];
    assert k == k[..32] + k[32..];
    assert key == key[..32] + key[32..];
  }

  // ---------------------------------------------------------------------
  // The webhook, one object at a time

  /** One record of the storage event: bucket, object key, size and eTag. */
  datatype ObjectEvent = ObjectEvent(bucket: string, key: string, size: int, eTag: string)

  /** What the webhook does with one record. */
  datatype Decision =
    | Skip                    // another bucket
    | Discard                 // rows exist for the key, none pending: the object is deleted
    | Reject(reason: string)  // the pending row becomes Error and the object is deleted
    | Accept                  // the pending row becomes Uploaded
    | Crash                   // no row at all: `file!.id` dereferences null and the route throws

  /** The id of the row that is pending for `key` (`findFirst`); with distinct names there is at most one. */
  function PendingRow(rows: Table, key: string): (p: Option<int>)
    requires DistinctNames(rows)
    ensures p.Some? <==> exists id :: id in rows && rows[id].fileName == key && rows[id].status == Pending
    ensures p.Some? ==> p.value in rows && rows[p.value].fileName == key && rows[p.value].status == Pending
  {
    if exists id :: id in rows && rows[id].fileName == key && rows[id].status == Pending then
      var id :| id in rows && rows[id].fileName == key && rows[id].status == Pending; Some(id)
    else None
  }

  /** `count({ fileName: key })`. */
  function NameCount(rows: Table, key: string): nat {
    |set id | id in rows && rows[id].fileName == key|
  }

  /**
    The decision for one record, in the order the route tests: the
    bucket, then "rows but none pending", then the size (strictly above
    2 GiB), then the digest (`key.startsWith(eTag)`).
   */
  function Decide(e: ObjectEvent, bucket: string, pending: Option<int>, count: nat): (d: Decision)
    ensures d == Skip <==> e.bucket != bucket
    ensures d == Discard <==> e.bucket == bucket && count != 0 && pending.None?
    ensures d == Crash <==> e.bucket == bucket && count == 0 && pending.None?
    ensures d == Accept <==> e.bucket == bucket && pending.Some? && e.size <= MaxObjectSize && StartsWith(e.key, e.eTag)
    ensures d.Reject? ==> e.bucket == bucket && pending.Some?
    ensures d.Reject? ==> d.reason == (if e.size > MaxObjectSize then TooLarge else DigestMismatch)
  {
    if e.bucket != bucket then Skip
    else if count != 0 && pending.None? then Discard
    else if pending.None? then Crash
    else if e.size > MaxObjectSize then Reject(TooLarge)
    else if !StartsWith(e.key, e.eTag) then Reject(DigestMismatch)
    else Accept
  }

  /** The size is tested before the digest: an oversized object is refused for its size whatever its eTag. */
  lemma SizeTestedFirst(e: ObjectEvent, bucket: string, id: int, count: nat, eTag: string)
    requires e.bucket == bucket && e.size > MaxObjectSize
    ensures Decide(e, bucket, Some(id), count) == Reject(TooLarge)
    ensures Decide(e.(eTag := eTag), bucket, Some(id), count) == Reject(TooLarge)
  {
  }

  /** `setError(reason)` on the table: the row becomes Error with the reason. */
  function SetError(rows: Table, id: int, reason: string): (r: Table)
    requires id in rows
    ensures r.Keys == rows.Keys
    ensures r[id].status == Error && r[id].errorMessage == Some(reason)
    ensures r[id].fileName == rows[id].fileName && r[id].fileSize == rows[id].fileSize
    ensures r[id].uploader == rows[id].uploader && r[id].createdAt == rows[id].createdAt
    ensures r[id].uploadTime == rows[id].uploadTime
    ensures forall k :: k in rows && k != id ==> r[k] == rows[k]
  {
    rows[id := rows[id].(status := Error, errorMessage := Some(reason))]
  }

  /** The accepting update: Uploaded, with the upload time and the object's size. */
  function SetUploaded(rows: Table, id: int, size: int, now: int): (r: Table)
    requires id in rows
    ensures r.Keys == rows.Keys
    ensures r[id].status == Uploaded && r[id].fileSize == Some(size) && r[id].uploadTime == Some(now)
    ensures r[id].fileName == rows[id].fileName && r[id].uploader == rows[id].uploader
    ensures r[id].errorMessage == rows[id].errorMessage && r[id].createdAt == rows[id].createdAt
    ensures forall k :: k in rows && k != id ==> r[k] == rows[k]
  {
    rows[id := rows[id].(status := Uploaded, uploadTime := Some(now), fileSize := Some(size))]
  }

  /** The state of a webhook run: the table, the object keys deleted so far, and whether it threw. */
  datatype Replayed = Replayed(rows: Table, deleted: seq<string>, crashed: bool)

  /** One record applied to a run that has not thrown. */
  function Step(prev: Replayed, e: ObjectEvent, bucket: string, now: int): (next: Replayed)
    requires DistinctNames(prev.rows)
  {
    var pending := PendingRow(prev.rows, e.key);
    match Decide(e, bucket, pending, NameCount(prev.rows, e.key))
    case Skip => prev
    case Discard => prev.(deleted := prev.deleted + [e.key])
    case Crash => prev.(crashed := true)
    case Reject(reason) => Replayed(SetError(prev.rows, pending.value, reason), prev.deleted + [e.key], false)
    case Accept => Replayed(SetUploaded(prev.rows, pending.value, e.size, now), prev.deleted, false)
  }

  /** One step keeps the row ids and names, and changes only a pending row, to Uploaded or Error. */
  lemma StepChangesOnlyPending(prev: Replayed, e: ObjectEvent, bucket: string, now: int)
    requires DistinctNames(prev.rows)
    ensures var next := Step(prev, e, bucket, now);
      && next.rows.Keys == prev.rows.Keys
      && (forall id :: id in prev.rows ==> next.rows[id].fileName == prev.rows[id].fileName)
      && (forall id :: id in prev.rows && next.rows[id] != prev.rows[id] ==>
            prev.rows[id].status == Pending && next.rows[id].status in {Uploaded, Error})
  {
  }

  /** `for (const record of Records)`, stopped by the first record that throws. */
  function Replay(rows: Table, events: seq<ObjectEvent>, bucket: string, now: int): (r: Replayed)
    requires DistinctNames(rows)
    ensures r.rows.Keys == rows.Keys && DistinctNames(r.rows)
    ensures forall id :: id in rows ==> r.rows[id].fileName == rows[id].fileName
    decreases |events|
  {
    if events == [] then Replayed(rows, [], false)
    else
      var prev := Replay(rows, events[..|events| - 1], bucket, now);
      if prev.crashed then prev
      else
        StepChangesOnlyPending(prev, events[|events| - 1], bucket, now);
        Step(prev, events[|events| - 1], bucket, now)
  }

  /**
    Across a whole webhook call a row changes at most from Pending to
    Uploaded or Error; nothing else in the table changes.
   */
  lemma {:induction false} ReplayChangesOnlyPending(rows: Table, events: seq<ObjectEvent>, bucket: string, now: int)
    requires DistinctNames(rows)
    ensures var r := Replay(rows, events, bucket, now).rows;
      forall id :: id in rows && r[id] != rows[id] ==> rows[id].status == Pending && r[id].status in {Uploaded, Error}
    decreases |events|
  {
    if events != [] {
      var prev := Replay(rows, events[..|events| - 1], bucket, now);
      ReplayChangesOnlyPending(rows, events[..|events| - 1], bucket, now);
      if !prev.crashed {
        StepChangesOnlyPending(prev, events[|events| - 1], bucket, now);
      }
    }
  }

  /** A run one record longer is the shorter run followed by one `Step`, unless it threw. */
  lemma ReplayNext(rows: Table, events: seq<ObjectEvent>, i: int, bucket: string, now: int)
    requires DistinctNames(rows) && 0 <= i < |events|
    ensures var prev := Replay(rows, events[..i], bucket, now);
      Replay(rows, events[..i + 1], bucket, now) == if prev.crashed then prev else Step(prev, events[i], bucket, now)
  {
    assert events[..i + 1][..i] == events[..i];
  }

  /** Once a record throws, the later records are not looked at. */
  lemma {:induction false} CrashStops(rows: Table, events: seq<ObjectEvent>, bucket: string, now: int, k: nat)
    requires DistinctNames(rows) && k <= |events|
    requires Replay(rows, events[..k], bucket, now).crashed
    ensures Replay(rows, events, bucket, now) == Replay(rows, events[..k], bucket, now)
    decreases |events|
  {
    if k < |events| {
      var init := events[..|events| - 1];
      assert init[..k] == events[..k];
      CrashStops(rows, init, bucket, now, k);
    } else {
      assert events[..k] == events;
    }
  }

  // ---------------------------------------------------------------------
  // The upload quota

  /** What one row adds to an uploader's total: its size when it is theirs, Uploaded and sized. */
  function Counted(row: Row, uploader: string): int {
    if row.uploader == uploader && row.status == Uploaded && row.fileSize.Some? then row.fileSize.value else 0
  }

  /** A non-empty set has an element. */
  lemma Inhabited(s: set<int>)
    requires s != {}
    ensures exists x :: x in s
  {
    if forall x :: x !in s {
      assert false;
    }
  }

  /** The sum of `Counted` over the rows `ids`, taken in any order. */
  ghost function SumOver(rows: Table, ids: set<int>, uploader: string): int
    requires ids <= rows.Keys
    decreases ids
  {
    if ids == {} then 0
    else
      Inhabited(ids);
      var id :| id in ids;
      Counted(rows[id], uploader) + SumOver(rows, ids - {id}, uploader)
  }

  /** The sum does not depend on which row is taken first. */
  lemma {:induction false} SumRemove(rows: Table, ids: set<int>, uploader: string, x: int)
    requires ids <= rows.Keys && x in ids
    ensures SumOver(rows, ids, uploader) == Counted(rows[x], uploader) + SumOver(rows, ids - {x}, uploader)
    decreases ids
  {
    var id :| id in ids && SumOver(rows, ids, uploader) == Counted(rows[id], uploader) + SumOver(rows, ids - {id}, uploader);
    if id != x {
      assert x in ids - {id};
      SumRemove(rows, ids - {id}, uploader, x);
      SumRemove(rows, ids - {x}, uploader, id);
      assert ids - {id} - {x} == ids - {x} - {id};
    }
  }

  /**
    `uploaded.filter(f => f.fileSize !== null).reduce(...)`: the total
    size of the uploader's uploaded, unpublished files.
   */
  ghost function Used(rows: Table, uploader: string): int {
    SumOver(rows, rows.Keys, uploader)
  }

  /** Rows that count nothing for the uploader do not change the total when they go. */
  lemma {:induction false} SumWithoutUncounted(rows: Table, ids: set<int>, uploader: string, gone: set<int>)
    requires ids <= rows.Keys && gone <= ids
    requires forall id :: id in gone ==> Counted(rows[id], uploader) == 0
    ensures SumOver(rows, ids - gone, uploader) == SumOver(rows, ids, uploader)
    decreases gone
  {
    if gone != {} {
      Inhabited(gone);
      var x :| x in gone;
      assert ids - {x} - (gone - {x}) == ids - gone;
      SumWithoutUncounted(rows, ids - {x}, uploader, gone - {x});
      SumRemove(rows, ids, uploader, x);
      assert Counted(rows[x], uploader) == 0;
    } else {
      assert ids - gone == ids;
    }
  }

  /** The same rows, with the same counts, give the same total. */
  lemma {:induction false} SumSameCounts(a: Table, b: Table, ids: set<int>, uploader: string)
    requires ids <= a.Keys && ids <= b.Keys
    requires forall id :: id in ids ==> Counted(a[id], uploader) == Counted(b[id], uploader)
    ensures SumOver(a, ids, uploader) == SumOver(b, ids, uploader)
    decreases ids
  {
    if ids != {} {
      Inhabited(ids);
      var x :| x in ids;
      SumRemove(a, ids, uploader, x);
      SumRemove(b, ids, uploader, x);
      SumSameCounts(a, b, ids - {x}, uploader);
    }
  }

  // ---------------------------------------------------------------------
  // A new upload replaces the rows of its key

  /**
    `deleteMany({ fileName: key })` then `create({ fileName: key,
    uploader, status: "Pending" })` under the next id.
   */
  function Replace(rows: Table, nextId: int, key: string, uploader: string, now: int): (r: Table)
    requires nextId !in rows
    ensures nextId in r && r[nextId] == Row(key, uploader, Pending, None, None, now, None)
    ensures forall id :: id in r && id != nextId ==> id in rows && rows[id].fileName != key && r[id] == rows[id]
    ensures forall id :: id in rows && rows[id].fileName != key ==> id in r
  {
    (map id | id in rows && rows[id].fileName != key :: rows[id])[nextId := Row(key, uploader, Pending, None, None, now, None)]
  }

  /** After a replacement the key names exactly one row, the new pending one, and names stay distinct. */
  lemma ReplaceLeavesOnePending(rows: Table, nextId: int, key: string, uploader: string, now: int)
    requires nextId !in rows && DistinctNames(rows)
    ensures var r := Replace(rows, nextId, key, uploader, now);
      && DistinctNames(r)
      && (forall id :: id in r && r[id].fileName == key ==> id == nextId)
      && PendingRow(r, key) == Some(nextId)
      && NameCount(r, key) == 1
  {
    var r := Replace(rows, nextId, key, uploader, now);
    assert (set id | id in r && r[id].fileName == key) == {nextId};
  }

  /**
    A replacement leaves a user's total as it was when none of the rows
    it deletes counted for that user: the new row is Pending and counts
    nothing.
   */
  lemma ReplaceKeepsQuotaOfOthers(rows: Table, nextId: int, key: string, uploader: string, now: int, other: string)
    requires nextId !in rows
    requires forall id :: id in rows && rows[id].fileName == key ==> Counted(rows[id], other) == 0
    ensures Used(Replace(rows, nextId, key, uploader, now), other) == Used(rows, other)
  {
    var r := Replace(rows, nextId, key, uploader, now);
    var gone := set id | id in rows && rows[id].fileName == key;
    var kept := rows.Keys - gone;
    SumWithoutUncounted(rows, rows.Keys, other, gone);
    SumRemove(r, r.Keys, other, nextId);
    assert r.Keys - {nextId} == kept;
    SumSameCounts(r, rows, kept, other);
  }
}
