/**
 * src/service/board_service.py: posts with images kept in an S3 bucket.
 *
 * The S3 bucket is an `ObjectStore`, the set of keys it holds. What boto3
 * does on each call is an input: an upload either stores its object or
 * raises (a boto error, or any other exception), and a delete either removes
 * its object or raises. The random `uuid4` of each upload is an input too.
 * The user behind the access token (`get_user_by_access_token`) is an
 * `Errors.UserLookup`.
 */
module BoardSvc {
  import opened Wrappers
  import opened PyStr
  import opened Errors
  import opened Orm
  import opened BoardRepo

  const RegisteredMessage: string := "게시글이 등록되었습니다."
  const NotFoundDetail: string := "게시글을 찾을 수 없습니다."
  const EditDenied: string := "수정 권한이 없습니다."
  const UpdatedMessage: string := "게시글이 수정되었습니다."
  const DeleteDenied: string := "삭제 권한이 없습니다."
  const DeletedMessage: string := "게시글과 이미지가 삭제되었습니다."
  const UploadFailedPrefix: string := "S3 업로드 실패: "

  /** The host part that separates the bucket name from the key in an object URL. */
  const S3Host: string := ".s3.amazonaws.com/"

  /** The `{"message": ..., "board_id": ...}` answer of the writing operations. */
  datatype Ack = Ack(message: string, boardId: int)

  /** The keys an S3 bucket holds. */
  class ObjectStore {
    var objects: set<string>

    constructor()
      ensures objects == {}
    {
      objects := {};
    }
  }

  // ---------------------------------------------------------------------
  // Object keys and URLs
  // ---------------------------------------------------------------------

  /** Line 27: the key an upload is stored under. */
  function ObjectKey(uuid: string, filename: string): (k: string)
    ensures StartsWith(k, "board/") && |k| == 7 + |uuid| + |filename|
    ensures k[|k| - |filename|..] == filename
  {
    "board/" + uuid + "_" + filename
  }

  /** The text line 81 splits an image URL on. */
  function Marker(bucket: string): string {
    bucket + S3Host
  }

  /** Line 33: the public URL of a stored object. */
  function ObjectUrl(bucket: string, key: string): (u: string)
    ensures StartsWith(u, "https://" + Marker(bucket))
  {
    "https://" + Marker(bucket) + key
  }

  /** Line 81: the key `delete_board` derives from an image URL, `url.split(marker)[-1]`. */
  function KeyOf(bucket: string, url: string): (key: string)
    ensures |key| <= |url| && key == url[|url| - |key|..]
    ensures !Contains(key, Marker(bucket))
  {
    LastPiece(url, Marker(bucket))
  }

  /** No copy of the marker starts inside the `https://` prefix of an object URL: such a copy would
      end, with its '/', on a letter or dot of the host name. */
  lemma MarkerFirstAtHost(bucket: string, key: string, k: int)
    requires 0 <= k < 8
    ensures !OccursAt(ObjectUrl(bucket, key), Marker(bucket), k)
  {
    var m := Marker(bucket);
    var url := ObjectUrl(bucket, key);
    var p := k + |m| - 1;
    assert 8 <= p < 8 + |m| - 1 < |url|;
    assert url[p] == m[p - 8] == S3Host[k + 9];
    assert S3Host[k + 9] != '/';
    assert url[k..k + |m|][|m| - 1] == url[p];
    assert m[|m| - 1] == '/';
  }

  /**
   * The key of a stored object comes back out of its URL exactly when the key
   * does not itself contain `<bucket>.s3.amazonaws.com/`; when it does, the
   * split cuts the key short and `delete_object` is sent a different key.
   */
  lemma KeyRoundTrip(bucket: string, key: string)
    ensures KeyOf(bucket, ObjectUrl(bucket, key)) == key <==> !Contains(key, Marker(bucket))
  {
    var m := Marker(bucket);
    var url := ObjectUrl(bucket, key);
    if !Contains(key, m) {
      assert OccursAt(url, m, 8) by {
        assert url[8..8 + |m|] == m;
      }
      forall k | 0 <= k < 8 ensures !OccursAt(url, m, k) {
        MarkerFirstAtHost(bucket, key, k);
      }
      assert FindFrom(url, m, 0) == Some(8);
      assert url[8 + |m|..] == key;
      LastPieceNoSeparator(key, m);
    }
  }

  // ---------------------------------------------------------------------
  // Uploads
  // ---------------------------------------------------------------------

  /** What boto3's `upload_fileobj` did with one file. */
  datatype UploadOutcome = Stored | BotoFailure(message: string) | OtherFailure(e: Exc)

  /** One `UploadFile` with the `uuid4` drawn for it and the outcome of its upload. */
  datatype Upload = Upload(filename: string, uuid: string, outcome: UploadOutcome)

  function KeyFor(u: Upload): string {
    ObjectKey(u.uuid, u.filename)
  }

  /** `upload_to_s3` (lines 25-35) as a value: the object URL, or the exception it ends in. */
  function UploadResult(bucket: string, u: Upload): (r: Result<string, Exc>)
    ensures r.Ok? <==> u.outcome.Stored?
    ensures r.Ok? ==> r.value == ObjectUrl(bucket, KeyFor(u))
    ensures u.outcome.BotoFailure? ==> r == Err(Http(500, UploadFailedPrefix + u.outcome.message))
    ensures u.outcome.OtherFailure? ==> r == Err(u.outcome.e)
  {
    match u.outcome
    case Stored => Ok(ObjectUrl(bucket, KeyFor(u)))
    case BotoFailure(m) => Err(Http(500, UploadFailedPrefix + m))
    case OtherFailure(e) => Err(e)
  }

  /** The index of the first upload that raises, if any. */
  function FirstFailure(us: seq<Upload>): (r: Option<nat>)
    ensures r.None? <==> forall j :: 0 <= j < |us| ==> us[j].outcome.Stored?
    ensures r.Some? ==> r.value < |us| && !us[r.value].outcome.Stored?
    ensures r.Some? ==> forall j :: 0 <= j < r.value ==> us[j].outcome.Stored?
  {
    if us == [] then None
    else if !us[0].outcome.Stored? then Some(0)
    else match FirstFailure(us[1..])
      case None => None
      case Some(k) => Some(k + 1)
  }

  /** The URLs of the first `n` uploads, in order. */
  function Urls(bucket: string, us: seq<Upload>): (r: seq<string>)
    ensures |r| == |us| && forall j :: 0 <= j < |us| ==> r[j] == ObjectUrl(bucket, KeyFor(us[j]))
  {
    seq(|us|, j requires 0 <= j < |us| => ObjectUrl(bucket, KeyFor(us[j])))
  }

  /** The keys of a run of uploads. */
  function Keys(us: seq<Upload>): set<string> {
    if us == [] then {} else Keys(us[..|us| - 1]) + {KeyFor(us[|us| - 1])}
  }

  /** The first upload that raises is the one after a run of stored uploads. */
  lemma FirstFailureAt(us: seq<Upload>, i: nat)
    requires i < |us| && !us[i].outcome.Stored?
    requires forall j :: 0 <= j < i ==> us[j].outcome.Stored?
    ensures FirstFailure(us) == Some(i)
  {
  }

  /** One more stored upload adds its key and its URL. */
  lemma ExtendRun(bucket: string, us: seq<Upload>, i: nat)
    requires i < |us|
    ensures Keys(us[..i + 1]) == Keys(us[..i]) + {KeyFor(us[i])}
    ensures Urls(bucket, us[..i + 1]) == Urls(bucket, us[..i]) + [ObjectUrl(bucket, KeyFor(us[i]))]
  {
    assert us[..i + 1] == us[..i] + [us[i]];
    assert us[..i + 1][..i] == us[..i];
  }

  // ---------------------------------------------------------------------
  // Ownership
  // ---------------------------------------------------------------------

  /** The current user and the board checked as on lines 62-65 and 73-76: the lookup's own exception first,
      then 403 for a missing board, then the `AttributeError` of `None.id`, then 403 for someone else's board. */
  function Authorise(lookup: UserLookup<User>, board: Option<Board>, denied: string): (r: Result<Board, Exc>)
    ensures r.Ok? <==> lookup.Returned? && lookup.user.Some? && board.Some? && board.value.userId == lookup.user.value.id
    ensures r.Ok? ==> r.value == board.value
    ensures lookup.Raised? ==> r == Err(lookup.e)
    ensures lookup.Returned? && board.None? ==> r == Err(Http(403, denied))
    ensures lookup.Returned? && lookup.user.Some? && r.Err? ==> r == Err(Http(403, denied))
  {
    match lookup
    case Raised(e) => Err(e)
    case Returned(user) =>
      if board.None? then Err(Http(403, denied))
      else if user.None? then Err(MissingAttribute("NoneType", "id"))
      else if board.value.userId != user.value.id then Err(Http(403, denied))
      else Ok(board.value)
  }

  /** The keys the loop of lines 79-84 deletes: those of every URL whose `delete_object` does not raise. */
  function RemovedKeys(bucket: string, urls: seq<string>, failing: set<string>): (r: set<string>)
    ensures forall u :: u in urls && u !in failing ==> KeyOf(bucket, u) in r
    ensures forall k :: k in r ==> exists u :: u in urls && u !in failing && k == KeyOf(bucket, u)
  {
    if urls == [] then {}
    else
      var last := urls[|urls| - 1];
      RemovedKeys(bucket, urls[..|urls| - 1], failing) + (if last in failing then {} else {KeyOf(bucket, last)})
  }

  /** One more URL adds its key to the deleted ones unless its delete raises. */
  lemma RemovedKeysStep(bucket: string, urls: seq<string>, failing: set<string>, i: nat)
    requires i < |urls|
    ensures RemovedKeys(bucket, urls[..i + 1], failing)
      == RemovedKeys(bucket, urls[..i], failing) + (if urls[i] in failing then {} else {KeyOf(bucket, urls[i])})
  {
    assert urls[..i + 1][..i] == urls[..i];
  }

  /** Deleting a board whose images were all uploaded by `create_board`, with no failing delete, removes
      exactly the objects the uploads stored, provided no key holds the marker text. */
  lemma {:induction false} DeleteRemovesUploads(bucket: string, us: seq<Upload>)
    requires forall j :: 0 <= j < |us| ==> !Contains(KeyFor(us[j]), Marker(bucket))
    ensures RemovedKeys(bucket, Urls(bucket, us), {}) == Keys(us)
  {
    if us != [] {
      var n := |us| - 1;
      assert Urls(bucket, us)[..n] == Urls(bucket, us[..n]);
      DeleteRemovesUploads(bucket, us[..n]);
      KeyRoundTrip(bucket, KeyFor(us[n]));
    }
  }

  // ---------------------------------------------------------------------
  // The service
  // ---------------------------------------------------------------------

  /** `BoardService` with its repository and the bucket its S3 client writes to. */
  class BoardService {
    const repo: BoardRepository
    const s3: ObjectStore
    const bucket: string

    constructor(repo: BoardRepository, s3: ObjectStore, bucket: string)
      ensures this.repo == repo && this.s3 == s3 && this.bucket == bucket
    {
      this.repo := repo;
      this.s3 := s3;
      this.bucket := bucket;
    }

    /** `upload_to_s3` (lines 25-35): stores the object under its key when boto3 succeeds. */
    method UploadToS3(u: Upload) returns (r: Result<string, Exc>)
      modifies s3
      ensures r == UploadResult(bucket, u)
      ensures s3.objects == if u.outcome.Stored? then old(s3.objects) + {KeyFor(u)} else old(s3.objects)
    {
      match u.outcome
      case Stored =>
        s3.objects := s3.objects + {KeyFor(u)};
        r := Ok(ObjectUrl(bucket, KeyFor(u)));
      case BotoFailure(m) =>
        r := Err(Http(500, UploadFailedPrefix + m));
      case OtherFailure(e) =>
        r := Err(e);
    }

    /** The loop of lines 42-44: uploads the files in order and collects their URLs, stopping at the
        first upload that raises. */
    method UploadAll(uploads: seq<Upload>) returns (r: Result<seq<string>, Exc>)
      modifies s3
      ensures FirstFailure(uploads).None? ==> r == Ok(Urls(bucket, uploads))
      ensures FirstFailure(uploads).None? ==> s3.objects == old(s3.objects) + Keys(uploads)
      ensures FirstFailure(uploads).Some? ==> r == Err(UploadResult(bucket, uploads[FirstFailure(uploads).value]).error)
      ensures FirstFailure(uploads).Some? ==> s3.objects == old(s3.objects) + Keys(uploads[..FirstFailure(uploads).value])
    {
      var urls: seq<string> := [];
      var i := 0;
      while i < |uploads|
        invariant 0 <= i <= |uploads|
        invariant forall j :: 0 <= j < i ==> uploads[j].outcome.Stored?
        invariant urls == Urls(bucket, uploads[..i])
        invariant s3.objects == old(s3.objects) + Keys(uploads[..i])
      {
        var url := UploadToS3(uploads[i]);
        if url.Err? {
          FirstFailureAt(uploads, i);
          assert FirstFailure(uploads).value == i;
          r := Err(url.error);
          return;
        }
        ExtendRun(bucket, uploads, i);
        urls := urls + [url.value];
        i := i + 1;
      }
      assert uploads[..i] == uploads;
      r := Ok(urls);
    }

    /**
     * `create_board` (lines 37-50). The board row is written first; the files
     * are then uploaded in order, and the first upload that raises ends the
     * call with its exception, leaving the board without image rows and the
     * objects already uploaded in the bucket.
     */
    method CreateBoard(lookup: UserLookup<User>, title: string, content: string, uploads: seq<Upload>)
      returns (r: Result<Ack, Exc>)
      requires repo.Valid()
      modifies repo, s3
      ensures repo.Valid()
      ensures lookup.Raised? ==> r == Err(lookup.e) && unchanged(repo, s3)
      ensures lookup == Returned(None) ==> r == Err(MissingAttribute("NoneType", "id")) && unchanged(repo, s3)
      ensures lookup.Returned? && lookup.user.Some? ==>
        repo.boards == old(repo.boards) + [Board(old(repo.nextId), lookup.user.value.id, title, content)]
      ensures lookup.Returned? && lookup.user.Some? && FirstFailure(uploads).None? ==>
        r == Ok(Ack(RegisteredMessage, old(repo.nextId))) &&
        repo.images == old(repo.images) + ImageRows(old(repo.nextId), Urls(bucket, uploads)) &&
        s3.objects == old(s3.objects) + Keys(uploads)
      ensures lookup.Returned? && lookup.user.Some? && FirstFailure(uploads).Some? ==>
        var k := FirstFailure(uploads).value;
        r == Err(UploadResult(bucket, uploads[k]).error) &&
        repo.images == old(repo.images) &&
        s3.objects == old(s3.objects) + Keys(uploads[..k])
    {
      match lookup
      case Raised(e) =>
        r := Err(e);
      case Returned(None) =>
        r := Err(MissingAttribute("NoneType", "id"));
      case Returned(Some(user)) =>
        var board := repo.CreateBoard(user.id, title, content);
        if uploads != [] {
          var urls := UploadAll(uploads);
          if urls.Err? {
            r := Err(urls.error);
            return;
          }
          repo.AddBoardImages(board.id, urls.value);
        } else {
          assert ImageRows(board.id, Urls(bucket, uploads)) == [] && Keys(uploads) == {};
          assert repo.images + [] == repo.images;
        }
        r := Ok(Ack(RegisteredMessage, board.id));
    }

    /** `get_board` (lines 52-56): the board, or 404. */
    function GetBoard(boardId: int): (r: Result<Board, Exc>)
      reads this, repo
      ensures r.Ok? ==> r.value in repo.boards && r.value.id == boardId
      ensures r.Err? <==> forall b :: b in repo.boards ==> b.id != boardId
      ensures r.Err? ==> r.error == Http(404, NotFoundDetail)
    {
      match repo.GetBoard(boardId)
      case None => Err(Http(404, NotFoundDetail))
      case Some(b) => Ok(b)
    }

    /** `get_all_boards` (lines 58-59): one page of the table. */
    function GetAllBoards(skip: nat, limit: nat): (r: seq<Board>)
      reads this, repo
      ensures |r| <= limit && forall b :: b in r ==> b in repo.boards
    {
      repo.GetAllBoards(skip, limit)
    }

    /** `update_board` (lines 61-70): only the owner may edit, and only the given fields change. */
    method UpdateBoard(lookup: UserLookup<User>, boardId: int, title: Option<string>, content: Option<string>)
      returns (r: Result<Ack, Exc>)
      requires repo.Valid()
      modifies repo
      ensures repo.Valid()
      ensures r.Ok? <==> Authorise(lookup, old(repo.GetBoard(boardId)), EditDenied).Ok?
      ensures r.Err? ==> r.error == Authorise(lookup, old(repo.GetBoard(boardId)), EditDenied).error && unchanged(repo)
      ensures r.Ok? ==> r.value == Ack(UpdatedMessage, boardId)
      ensures r.Ok? ==> repo.GetBoard(boardId) == Some(Edited(old(repo.GetBoard(boardId)).value, title, content))
      ensures r.Ok? ==> repo.images == old(repo.images)
      ensures r.Ok? ==> forall b :: b in old(repo.boards) && b.id != boardId ==> b in repo.boards
      ensures r.Ok? ==> repo.nextId == old(repo.nextId) && |repo.boards| == |old(repo.boards)|
      ensures r.Ok? ==> forall k :: 0 <= k < |repo.boards| ==>
        repo.boards[k] == if old(repo.boards)[k].id == boardId then Edited(old(repo.GetBoard(boardId)).value, title, content)
                          else old(repo.boards)[k]
    {
      var check := Authorise(lookup, repo.GetBoard(boardId), EditDenied);
      if check.Err? {
        r := Err(check.error);
        return;
      }
      ghost var before := repo.boards;
      var updated := repo.UpdateBoard(boardId, title, content);
      forall b | b in before && b.id != boardId ensures b in repo.boards {
        var k :| 0 <= k < |before| && before[k] == b;
        assert repo.boards[k] == b;
      }
      r := Ok(Ack(UpdatedMessage, updated.value.id));
    }

    /** The loop of lines 79-84: deletes the object behind each URL, skipping the deletes that raise. */
    method DeleteObjects(urls: seq<string>, failing: set<string>)
      modifies s3
      ensures s3.objects == old(s3.objects) - RemovedKeys(bucket, urls, failing)
    {
      var i := 0;
      while i < |urls|
        invariant 0 <= i <= |urls|
        invariant s3.objects == old(s3.objects) - RemovedKeys(bucket, urls[..i], failing)
      {
        RemovedKeysStep(bucket, urls, failing, i);
        if urls[i] !in failing {
          s3.objects := s3.objects - {KeyOf(bucket, urls[i])};
        }
        i := i + 1;
      }
      assert urls[..i] == urls;
    }

    /**
     * `delete_board` (lines 72-90): only the owner may delete. Each image
     * object is deleted under the key split out of its URL; a delete that
     * raises is skipped. The board row goes, its image rows stay.
     */
    method DeleteBoard(lookup: UserLookup<User>, boardId: int, failing: set<string>) returns (r: Result<Ack, Exc>)
      requires repo.Valid()
      modifies repo, s3
      ensures repo.Valid()
      ensures r.Ok? <==> Authorise(lookup, old(repo.GetBoard(boardId)), DeleteDenied).Ok?
      ensures r.Err? ==> r.error == Authorise(lookup, old(repo.GetBoard(boardId)), DeleteDenied).error && unchanged(repo, s3)
      ensures r.Ok? ==> r.value == Ack(DeletedMessage, boardId)
      ensures r.Ok? ==> s3.objects == old(s3.objects) - RemovedKeys(bucket, old(repo.GetBoardImages(boardId)), failing)
      ensures r.Ok? ==> repo.GetBoard(boardId).None? && repo.images == old(repo.images)
      ensures r.Ok? ==> forall b :: b in repo.boards <==> b in old(repo.boards) && b.id != boardId
    {
      var check := Authorise(lookup, repo.GetBoard(boardId), DeleteDenied);
      if check.Err? {
        r := Err(check.error);
        return;
      }
      var urls := repo.GetBoardImages(boardId);
      DeleteObjects(urls, failing);
      var deleted := repo.DeleteBoard(boardId);
      r := Ok(Ack(DeletedMessage, boardId));
    }
  }
}
