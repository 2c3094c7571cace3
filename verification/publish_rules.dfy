/**
  The table queries and the status update of src/api/file.ts, the
  routes the publishing side calls once the files of a pull request
  are merged: list what is not yet published, then mark a set of rows
  Published and remove the `temp` tag of their objects.
 */
module PublishRules {
  import opened Text
  import opened UploadRules

  const Unauthorized := "无效的 Token"
  const WrongStatus := "文件状态不正确"
  const SomeUntagFailed := "部分文件删除失败"

  /** `since` defaults to `new Date(0)`, the epoch. */
  function Since(since: Option<int>): int {
    if since.Some? then since.value else 0
  }

  /** `/notPublished`: the rows created at or after `since` that are not Published, as stored. */
  function NotPublished(rows: Table, since: Option<int>): (r: Table)
    ensures forall id :: id in r <==> id in rows && rows[id].createdAt >= Since(since) && rows[id].status != Published
    ensures forall id :: id in r ==> r[id] == rows[id]
  {
    map id | id in rows && rows[id].createdAt >= Since(since) && rows[id].status != Published :: rows[id]
  }

  /** The statuses a row may have to be published: it has been uploaded, or is published already. */
  predicate Publishable(s: Status) {
    s == Uploaded || s == Published
  }

  /** The `check` query: the requested rows whose status forbids publishing, with that status. */
  function Blocking(rows: Table, ids: seq<int>): (r: map<int, Status>)
    ensures forall id :: id in r <==> id in rows && id in ids && !Publishable(rows[id].status)
    ensures forall id :: id in r ==> r[id] == rows[id].status
  {
    map id | id in rows && id in ids && !Publishable(rows[id].status) :: rows[id].status
  }

  /** `updateMany({ id in ids }, { status: "Published" })`: unknown ids are ignored. */
  function PublishAll(rows: Table, ids: seq<int>): (r: Table)
    ensures r.Keys == rows.Keys
    ensures forall id :: id in rows && id in ids ==> r[id] == rows[id].(status := Published)
    ensures forall id :: id in rows && id !in ids ==> r[id] == rows[id]
  {
    map id | id in rows :: if id in ids then rows[id].(status := Published) else rows[id]
  }

  /** Publishing twice is publishing once. */
  lemma PublishIdempotent(rows: Table, ids: seq<int>)
    ensures PublishAll(PublishAll(rows, ids), ids) == PublishAll(rows, ids)
  {
    var once := PublishAll(rows, ids);
    var twice := PublishAll(once, ids);
    forall id | id in rows ensures twice[id] == once[id] {
    }
  }

  /** Once published, the same request passes the status check again. */
  lemma RepublishAllowed(rows: Table, ids: seq<int>)
    ensures Blocking(PublishAll(rows, ids), ids) == map[]
  {
    var r := Blocking(PublishAll(rows, ids), ids);
    forall id | id in rows && id in ids ensures id !in r {
      assert PublishAll(rows, ids)[id].status == Published;
    }
    assert r.Keys == {};
  }

  /** The published rows no longer appear among the unpublished ones, whatever `since`. */
  lemma PublishedLeaveNotPublished(rows: Table, ids: seq<int>, since: Option<int>, id: int)
    requires id in rows && id in ids
    ensures id !in NotPublished(PublishAll(rows, ids), since)
    ensures NotPublished(PublishAll(rows, ids), since).Keys <= NotPublished(rows, since).Keys
  {
  }

  /** The update changes statuses only: names stay distinct. */
  lemma PublishKeepsNames(rows: Table, ids: seq<int>)
    requires DistinctNames(rows)
    ensures DistinctNames(PublishAll(rows, ids))
  {
    var r := PublishAll(rows, ids);
    forall i, j | i in r && j in r && r[i].fileName == r[j].fileName ensures i == j {
      assert rows[i].fileName == r[i].fileName && rows[j].fileName == r[j].fileName;
    }
  }

  /** One entry of `responses`: the file and whether removing its tag succeeded. */
  datatype Untagged = Untagged(id: int, fileName: string, fulfilled: bool)

  /** `!responses.some(r => r.status === "rejected")`. */
  function Succeeded(responses: seq<Untagged>): (ok: bool)
    ensures ok <==> forall k :: 0 <= k < |responses| ==> responses[k].fulfilled
  {
    if responses == [] then true else responses[0].fulfilled && Succeeded(responses[1..])
  }
}
