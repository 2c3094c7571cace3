/**
  The `File` table as the storage and publishing routes change it, row
  by row: the upload route replaces the rows of a key by one Pending row,
  the storage webhook moves Pending rows to Uploaded or Error, and the
  publish route moves requested rows to Published.
 */
module FileTable {
  import opened Text
  import opened UploadRules
  import opened PublishRules
  import Chunking

  const BadKey := "文件名不合法"
  const AlreadyExists := "文件已存在"
  const PrecheckFailed := "文件预检失败, status="
  const OverQuota := "未发布文件总大小超过限制，请等待 PR 合并后再试"
  const NoCredentials := "获取临时凭证失败"

  /** The webhook's answer. */
  datatype HookReply = HookUnauthorized | HookDone | HookCrashed

  /** The publish route's answer. */
  datatype PublishReply =
    | PublishUnauthorized
    | StatusRejected(error: string, files: map<int, Status>)
    | Untag(success: bool, failure: Option<string>, responses: seq<Untagged>)

  class Files {
    var rows: Table
    /** The id the next created row gets (the autoincrement counter). */
    var nextId: int

    ghost predicate Valid()
      reads this
    {
      && DistinctNames(rows)
      && (forall id :: id in rows ==> id < nextId)
    }

    constructor (stored: Table, next: int)
      requires DistinctNames(stored) && forall id :: id in stored ==> id < next
      ensures Valid() && rows == stored && nextId == next
    {
      rows := stored;
      nextId := next;
    }

    /**
      `POST /webhook`: refused without the shared token; any event but a
      completed PUT is acknowledged untouched; otherwise the records are
      handled in order, as `Replay` states, and `deleted` lists the
      objects removed from the bucket. A record without any row throws
      and ends the call; the rows already updated stay updated.
     */
    method Webhook(header: Option<string>, secret: string, eventName: string, events: seq<ObjectEvent>,
                   bucket: string, now: int)
      returns (r: HookReply, deleted: seq<string>)
      requires Valid()
      modifies this
      ensures Valid()
      ensures nextId == old(nextId)
      ensures !Authorized(header, secret) ==> r == HookUnauthorized && deleted == [] && rows == old(rows)
      ensures Authorized(header, secret) && eventName != PutEvent ==> r == HookDone && deleted == [] && rows == old(rows)
      ensures Authorized(header, secret) && eventName == PutEvent ==>
        var run := Replay(old(rows), events, bucket, now);
        && rows == run.rows && deleted == run.deleted
        && r == (if run.crashed then HookCrashed else HookDone)
    {
      deleted := [];
      if !Authorized(header, secret) {
        return HookUnauthorized, [];
      }
      if eventName != PutEvent {
        return HookDone, [];
      }
      var i := 0;
      while i < |events|
        invariant 0 <= i <= |events|
        invariant Valid() && nextId == old(nextId)
        invariant Replay(old(rows), events[..i], bucket, now) == Replayed(rows, deleted, false)
      {
        ReplayNext(old(rows), events, i, bucket, now);
        var crashed;
        crashed, deleted := HandleRecord(events[i], bucket, now, deleted);
        if crashed {
          CrashStops(old(rows), events, bucket, now, i + 1);
          return HookCrashed, deleted;
        }
        i := i + 1;
      }
      assert events[..i] == events;
      r := HookDone;
    }

    /**
      The body of the webhook loop for one record: skip another bucket;
      delete an object whose rows are none of them pending; throw when
      there is no row; otherwise refuse an oversized object, then one
      whose key does not start with its eTag, or accept it.
     */
    method HandleRecord(e: ObjectEvent, bucket: string, now: int, before: seq<string>)
      returns (crashed: bool, after: seq<string>)
      requires Valid()
      modifies this
      ensures Valid() && nextId == old(nextId)
      ensures Step(Replayed(old(rows), before, false), e, bucket, now) == Replayed(rows, after, crashed)
    {
      after := before;
      crashed := false;
      if e.bucket != bucket {
        return;
      }
      var file := PendingRow(rows, e.key);
      var count := NameCount(rows, e.key);
      if count != 0 && file.None? {
        after := before + [e.key];
      } else if file.None? {
        crashed := true;
      } else if e.size > MaxObjectSize {
        rows := SetError(rows, file.value, TooLarge);
        after := before + [e.key];
      } else if !StartsWith(e.key, e.eTag) {
        rows := SetError(rows, file.value, DigestMismatch);
        after := before + [e.key];
      } else {
        rows := SetUploaded(rows, file.value, e.size, now);
      }
    }

    /** The total the quota compares: the caller's uploaded, sized rows, summed in whatever order they come. */
    method UsedBy(uploader: string) returns (total: int)
      ensures total == Used(rows, uploader)
    {
      total := 0;
      var rest := rows.Keys;
      while rest != {}
        invariant rest <= rows.Keys
        invariant total + SumOver(rows, rest, uploader) == Used(rows, uploader)
        decreases rest
      {
        Inhabited(rest);
        var id :| id in rest;
        SumRemove(rows, rest, uploader, id);
        total := total + Counted(rows[id], uploader);
        rest := rest - {id};
      }
    }

    /**
      `POST /upload`: the key format, then the object must not exist yet
      (`HEAD` answers 404), then the quota, then the temporary
      credentials; only then the rows of the key are replaced by one
      Pending row for the caller.
     */
    method Upload(uploader: string, key: string, headStatus: int, credentialsOk: bool, now: int)
      returns (r: Result<string, string>)
      requires Valid()
      modifies this
      ensures Valid()
      ensures !ValidKey(key) ==> r == Failure(BadKey) && unchanged(this)
      ensures ValidKey(key) && headStatus == 200 ==> r == Failure(AlreadyExists) && unchanged(this)
      ensures ValidKey(key) && headStatus != 200 && headStatus != 404 ==>
        r == Failure(PrecheckFailed + IntText(headStatus)) && unchanged(this)
      ensures ValidKey(key) && headStatus == 404 && Used(old(rows), uploader) > Quota ==>
        r == Failure(OverQuota) && unchanged(this)
      ensures ValidKey(key) && headStatus == 404 && Used(old(rows), uploader) <= Quota && !credentialsOk ==>
        r == Failure(NoCredentials) && unchanged(this)
      ensures ValidKey(key) && headStatus == 404 && Used(old(rows), uploader) <= Quota && credentialsOk ==>
        && r == Success(key)
        && rows == Replace(old(rows), old(nextId), key, uploader, now)
        && nextId == old(nextId) + 1
    {
      if !ValidKey(key) {
        return Failure(BadKey);
      }
      if headStatus == 200 {
        return Failure(AlreadyExists);
      } else if headStatus != 404 {
        return Failure(PrecheckFailed + IntText(headStatus));
      }
      var total := UsedBy(uploader);
      if total > Quota {
        return Failure(OverQuota);
      }
      if !credentialsOk {
        return Failure(NoCredentials);
      }
      ReplaceLeavesOnePending(rows, nextId, key, uploader, now);
      rows := Replace(rows, nextId, key, uploader, now);
      nextId := nextId + 1;
      r := Success(key);
    }

    /** `GET /notPublished` behind the shared token. */
    function NotPublishedRoute(header: Option<string>, secret: string, since: Option<int>): (r: Result<Table, string>)
      reads this
      ensures r.Success? <==> Authorized(header, secret)
      ensures r.Failure? ==> r.error == Unauthorized
      ensures r.Success? ==> forall id :: id in r.value <==>
        id in rows && rows[id].createdAt >= Since(since) && rows[id].status != Published
      ensures r.Success? ==> forall id :: id in r.value ==> r.value[id] == rows[id]
    {
      if !Authorized(header, secret) then Failure(Unauthorized) else Success(NotPublished(rows, since))
    }

    /** The `updated` query: id and name of every requested row that exists, each once. */
    method Requested(ids: seq<int>) returns (updated: seq<(int, string)>)
      ensures forall id :: id in rows && id in ids <==> HasId(updated, id)
      ensures forall k :: 0 <= k < |updated| ==> updated[k].0 in rows && updated[k].1 == rows[updated[k].0].fileName
      ensures forall a, b :: 0 <= a < b < |updated| ==> updated[a].0 != updated[b].0
    {
      updated := [];
      var rest := set id | id in rows && id in ids;
      while rest != {}
        invariant rest <= rows.Keys
        invariant forall id :: id in rows && id in ids <==> id in rest || HasId(updated, id)
        invariant forall k :: 0 <= k < |updated| ==> updated[k].0 in rows && updated[k].0 !in rest
        invariant forall k :: 0 <= k < |updated| ==> updated[k].1 == rows[updated[k].0].fileName
        invariant forall a, b :: 0 <= a < b < |updated| ==> updated[a].0 != updated[b].0
        decreases rest
      {
        Inhabited(rest);
        var id :| id in rest;
        HasIdAppend(updated, (id, rows[id].fileName));
        updated := updated + [(id, rows[id].fileName)];
        rest := rest - {id};
      }
    }

    /**
      `POST /publish`: refused when a requested row is in neither
      Uploaded nor Published, listing those rows; otherwise every
      requested row becomes Published and the tag of each one's object is
      removed, five at a time; the answer fails, with its own message, when
      any removal failed.
     */
    method Publish(header: Option<string>, secret: string, ids: seq<int>, untagOk: string -> bool)
      returns (r: PublishReply)
      requires Valid()
      modifies this
      ensures Valid()
      ensures nextId == old(nextId)
      ensures !Authorized(header, secret) ==> r == PublishUnauthorized && rows == old(rows)
      ensures Authorized(header, secret) && Blocking(old(rows), ids) != map[] ==>
        r == StatusRejected(WrongStatus, Blocking(old(rows), ids)) && rows == old(rows)
      ensures Authorized(header, secret) && Blocking(old(rows), ids) == map[] ==>
        && rows == PublishAll(old(rows), ids)
        && r.Untag?
        && (forall id :: id in rows && id in ids <==> exists k :: 0 <= k < |r.responses| && r.responses[k].id == id)
        && (forall k :: 0 <= k < |r.responses| ==>
              r.responses[k].fileName == rows[r.responses[k].id].fileName
              && r.responses[k].fulfilled == untagOk(r.responses[k].fileName))
        && (forall a, b :: 0 <= a < b < |r.responses| ==> r.responses[a].id != r.responses[b].id)
        && (r.success <==> forall k :: 0 <= k < |r.responses| ==> untagOk(r.responses[k].fileName))
        && (r.failure.None? <==> r.success)
        && (r.failure.Some? ==> r.failure.value == SomeUntagFailed)
    {
      if !Authorized(header, secret) {
        return PublishUnauthorized;
      }
      var check := Blocking(rows, ids);
      if check != map[] {
        return StatusRejected(WrongStatus, check);
      }
      PublishKeepsNames(rows, ids);
      rows := PublishAll(rows, ids);
      var updated := Requested(ids);
      var responses := UntagAll(updated, untagOk);
      var success := Succeeded(responses);
      r := Untag(success, if success then None else Some(SomeUntagFailed), responses);
    }
  }

  /** Some pair of `pairs` carries `id`. */
  predicate HasId(pairs: seq<(int, string)>, id: int) {
    exists k :: 0 <= k < |pairs| && pairs[k].0 == id
  }

  /** A pair appended carries its own id, and every id the others carried. */
  lemma HasIdAppend(pairs: seq<(int, string)>, e: (int, string))
    ensures forall x :: HasId(pairs + [e], x) <==> x == e.0 || HasId(pairs, x)
  {
    var grown := pairs + [e];
    assert grown[|pairs|].0 == e.0;
    forall x | HasId(pairs, x) ensures HasId(grown, x) {
      var k :| 0 <= k < |pairs| && pairs[k].0 == x;
      assert grown[k].0 == x;
    }
    forall x | HasId(grown, x) && x != e.0 ensures HasId(pairs, x) {
      var k :| 0 <= k < |grown| && grown[k].0 == x;
      assert pairs[k].0 == x;
    }
  }

  /** The response for one file: fulfilled exactly when removing its tag succeeded. */
  function Response(file: (int, string), untagOk: string -> bool): Untagged {
    Untagged(file.0, file.1, untagOk(file.1))
  }

  /**
    One batch of `chunk(updated, 5)`, its removals awaited together: one
    response per file, in order.
   */
  method UntagBatch(files: seq<(int, string)>, untagOk: string -> bool) returns (responses: seq<Untagged>)
    ensures |responses| == |files|
    ensures forall k :: 0 <= k < |files| ==> responses[k] == Response(files[k], untagOk)
  {
    responses := [];
    var j := 0;
    while j < |files|
      invariant 0 <= j <= |files|
      invariant |responses| == j
      invariant forall k :: 0 <= k < j ==> responses[k] == Response(files[k], untagOk)
    {
      responses := responses + [Response(files[j], untagOk)];
      j := j + 1;
    }
  }

  /**
    The loop over `chunk(updated, 5)`: one response per file, in the
    order of `updated`, fulfilled exactly when the tag removal succeeded.
   */
  method UntagAll(updated: seq<(int, string)>, untagOk: string -> bool) returns (responses: seq<Untagged>)
    ensures |responses| == |updated|
    ensures forall k :: 0 <= k < |updated| ==>
      responses[k] == Untagged(updated[k].0, updated[k].1, untagOk(updated[k].1))
  {
    var batches: seq<seq<(int, string)>> := Chunking.Chunk(updated, 5);
    responses := [];
    var b := 0;
    while b < |batches|
      invariant 0 <= b <= |batches|
      invariant |responses| == |Chunking.Concat(batches[..b])|
      invariant forall k :: 0 <= k < |responses| ==> responses[k] == Response(Chunking.Concat(batches[..b])[k], untagOk)
    {
      var batch := UntagBatch(batches[b], untagOk);
      ConcatNext(batches, b);
      RespondedAppend(Chunking.Concat(batches[..b]), responses, batches[b], batch, untagOk);
      responses := responses + batch;
      b := b + 1;
    }
    assert batches[..b] == batches;
  }

  /** The batches up to `b + 1` are those up to `b`, then batch `b`. */
  lemma ConcatNext<T>(batches: seq<seq<T>>, b: int)
    requires 0 <= b < |batches|
    ensures Chunking.Concat(batches[..b + 1]) == Chunking.Concat(batches[..b]) + batches[b]
  {
    assert batches[..b + 1][..b] == batches[..b];
  }

  /** The responses of two runs of files, one after the other, are those of the joined run. */
  lemma RespondedAppend(xs: seq<(int, string)>, rs: seq<Untagged>, ys: seq<(int, string)>, batch: seq<Untagged>,
                        untagOk: string -> bool)
    requires |rs| == |xs| && |batch| == |ys|
    requires forall k :: 0 <= k < |xs| ==> rs[k] == Response(xs[k], untagOk)
    requires forall k :: 0 <= k < |ys| ==> batch[k] == Response(ys[k], untagOk)
    ensures |rs + batch| == |xs + ys|
    ensures forall k :: 0 <= k < |xs + ys| ==> (rs + batch)[k] == Response((xs + ys)[k], untagOk)
  {
    forall k | 0 <= k < |xs + ys|
      ensures (rs + batch)[k] == Response((xs + ys)[k], untagOk)
    {
      if k >= |xs| {
        assert (rs + batch)[k] == batch[k - |xs|];
        assert (xs + ys)[k] == ys[k - |xs|];
      }
    }
  }
}
