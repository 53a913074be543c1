/**
 * src/database/repository/board_repository.py over in-memory `board` and
 * `board_image` tables. `Board` and `BoardImage` are mapped classes that
 * src/database/orm.py does not define; their columns are the ones the
 * repository reads and writes.
 */
module BoardRepo {
  import opened Wrappers

  /** One row of `board`. */
  datatype Board = Board(id: int, userId: int, title: string, content: string)

  /** One row of `board_image`. */
  datatype BoardImage = BoardImage(boardId: int, url: string)

  /** Where the board with that id sits in the table, if anywhere. */
  function FindBoard(boards: seq<Board>, boardId: int): (r: Option<nat>)
    ensures r.Some? ==> r.value < |boards| && boards[r.value].id == boardId
    ensures r.None? <==> forall k :: 0 <= k < |boards| ==> boards[k].id != boardId
  {
    if boards == [] then None
    else if boards[0].id == boardId then Some(0)
    else match FindBoard(boards[1..], boardId)
      case None => None
      case Some(k) => Some(k + 1)
  }

  /** Board ids increase along the table: each id names at most one row. */
  ghost predicate IdsIncrease(boards: seq<Board>) {
    forall i, j :: 0 <= i < j < |boards| ==> boards[i].id < boards[j].id
  }

  /** The URLs stored for one board, in insertion order. */
  function ImagesOf(images: seq<BoardImage>, boardId: int): (r: seq<string>)
    ensures |r| <= |images|
    ensures forall u :: u in r <==> BoardImage(boardId, u) in images
  {
    if images == [] then []
    else
      assert images == [images[0]] + images[1..];
      (if images[0].boardId == boardId then [images[0].url] else []) + ImagesOf(images[1..], boardId)
  }

  /** The rows `add_board_images` inserts: one per URL, in order. */
  function ImageRows(boardId: int, urls: seq<string>): (r: seq<BoardImage>)
    ensures |r| == |urls| && forall k :: 0 <= k < |urls| ==> r[k] == BoardImage(boardId, urls[k])
  {
    seq(|urls|, k requires 0 <= k < |urls| => BoardImage(boardId, urls[k]))
  }

  lemma {:induction false} ImagesOfAppend(xs: seq<BoardImage>, ys: seq<BoardImage>, boardId: int)
    ensures ImagesOf(xs + ys, boardId) == ImagesOf(xs, boardId) + ImagesOf(ys, boardId)
  {
    if xs != [] {
      assert (xs + ys)[0] == xs[0] && (xs + ys)[1..] == xs[1..] + ys;
      ImagesOfAppend(xs[1..], ys, boardId);
      var head := if xs[0].boardId == boardId then [xs[0].url] else [];
      assert ImagesOf(xs + ys, boardId) == head + ImagesOf(xs[1..] + ys, boardId);
      assert ImagesOf(xs, boardId) == head + ImagesOf(xs[1..], boardId);
    } else {
      assert xs + ys == ys;
    }
  }

  lemma {:induction false} ImagesOfRows(boardId: int, urls: seq<string>, other: int)
    ensures ImagesOf(ImageRows(boardId, urls), boardId) == urls
    ensures other != boardId ==> ImagesOf(ImageRows(boardId, urls), other) == []
  {
    if urls != [] {
      assert ImageRows(boardId, urls)[1..] == ImageRows(boardId, urls[1..]);
      ImagesOfRows(boardId, urls[1..], other);
    }
  }

  /** Reading a board's images after adding some gives the earlier ones followed by the new ones, in order;
      other boards see no change. */
  lemma ImagesAfterAdd(images: seq<BoardImage>, boardId: int, urls: seq<string>, other: int)
    ensures ImagesOf(images + ImageRows(boardId, urls), boardId) == ImagesOf(images, boardId) + urls
    ensures other != boardId ==> ImagesOf(images + ImageRows(boardId, urls), other) == ImagesOf(images, other)
  {
    ImagesOfAppend(images, ImageRows(boardId, urls), boardId);
    ImagesOfAppend(images, ImageRows(boardId, urls), other);
    ImagesOfRows(boardId, urls, other);
    assert ImagesOf(images, other) + [] == ImagesOf(images, other);
  }

  /** The table without its `k`-th row keeps increasing ids and loses exactly that row's id. */
  lemma RemoveRow(boards: seq<Board>, k: nat)
    requires k < |boards| && IdsIncrease(boards)
    ensures IdsIncrease(boards[..k] + boards[k + 1..])
    ensures forall b :: b in boards[..k] + boards[k + 1..] <==> b in boards && b.id != boards[k].id
  {
    var after := boards[..k] + boards[k + 1..];
    assert forall i :: 0 <= i < |after| ==> after[i] == boards[if i < k then i else i + 1];
    forall b | b in boards && b.id != boards[k].id ensures b in after {
      var i :| 0 <= i < |boards| && boards[i] == b;
      assert after[if i < k then i else i - 1] == b;
    }
  }

  /** Line 43-46: the board with only the given fields replaced. */
  function Edited(b: Board, title: Option<string>, content: Option<string>): (r: Board)
    ensures r.id == b.id && r.userId == b.userId
    ensures r.title == title.GetOr(b.title) && r.content == content.GetOr(b.content)
  {
    b.(title := title.GetOr(b.title), content := content.GetOr(b.content))
  }

  /** Editing with nothing to change is the identity; editing twice keeps the later values. */
  lemma EditedLaws(b: Board, t1: Option<string>, c1: Option<string>, t2: Option<string>, c2: Option<string>)
    ensures Edited(b, None, None) == b
    ensures Edited(Edited(b, t1, c1), t2, c2).title == (if t2.Some? then t2.value else t1.GetOr(b.title))
    ensures Edited(Edited(b, t1, c1), t2, c2).content == (if c2.Some? then c2.value else c1.GetOr(b.content))
  {
  }

  /** `BoardRepository` with its two tables; `nextId` is the key the sequence hands out next. */
  class BoardRepository {
    var boards: seq<Board>
    var images: seq<BoardImage>
    var nextId: int

    ghost predicate Valid()
      reads this
    {
      IdsIncrease(boards) &&
      (forall i :: 0 <= i < |boards| ==> boards[i].id < nextId) &&
      (forall k :: 0 <= k < |images| ==> images[k].boardId < nextId)
    }

    constructor()
      ensures Valid() && boards == [] && images == [] && nextId == 1
    {
      boards := [];
      images := [];
      nextId := 1;
    }

    /** `create_board` (lines 11-16): a new row owned by the user, with a fresh id. */
    method CreateBoard(userId: int, title: string, content: string) returns (b: Board)
      requires Valid()
      modifies this
      ensures Valid()
      ensures b == Board(old(nextId), userId, title, content)
      ensures boards == old(boards) + [b] && images == old(images) && nextId == old(nextId) + 1
    {
      b := Board(nextId, userId, title, content);
      boards := boards + [b];
      nextId := nextId + 1;
    }

    /** `add_board_images` (lines 18-21): one image row per URL. */
    method AddBoardImages(boardId: int, urls: seq<string>)
      requires Valid() && boardId < nextId
      modifies this
      ensures Valid()
      ensures images == old(images) + ImageRows(boardId, urls)
      ensures boards == old(boards) && nextId == old(nextId)
      ensures GetBoardImages(boardId) == old(GetBoardImages(boardId)) + urls
    {
      ImagesAfterAdd(images, boardId, urls, boardId);
      images := images + ImageRows(boardId, urls);
    }

    /** `get_board` (lines 23-25): the row with that id, or `None`. */
    function GetBoard(boardId: int): (r: Option<Board>)
      reads this
      ensures r.Some? ==> r.value in boards && r.value.id == boardId
      ensures r.None? <==> forall b :: b in boards ==> b.id != boardId
    {
      match FindBoard(boards, boardId)
      case None => None
      case Some(k) => Some(boards[k])
    }

    /** `get_all_boards` (lines 27-31): at most `limit` rows, starting after the first `skip`. */
    function GetAllBoards(skip: nat, limit: nat): (r: seq<Board>)
      reads this
      ensures |r| <= limit
      ensures skip >= |boards| ==> r == []
      ensures skip < |boards| ==> |r| == if skip + limit <= |boards| then limit else |boards| - skip
      ensures forall k :: 0 <= k < |r| ==> r[k] == boards[skip + k]
    {
      if skip >= |boards| then []
      else if skip + limit <= |boards| then boards[skip..skip + limit]
      else boards[skip..]
    }

    /** `get_board_images` (lines 33-37): the board's image URLs. */
    function GetBoardImages(boardId: int): (r: seq<string>)
      reads this
      ensures forall u :: u in r <==> BoardImage(boardId, u) in images
    {
      ImagesOf(images, boardId)
    }

    /** `update_board` (lines 39-49): `None` when there is no such board, otherwise the board with the given
        fields replaced, in place. */
    method UpdateBoard(boardId: int, title: Option<string>, content: Option<string>) returns (r: Option<Board>)
      requires Valid()
      modifies this
      ensures Valid() && images == old(images) && nextId == old(nextId)
      ensures r.None? <==> old(GetBoard(boardId)).None?
      ensures r.None? ==> boards == old(boards)
      ensures r.Some? ==> r.value == Edited(old(GetBoard(boardId)).value, title, content)
      ensures |boards| == |old(boards)|
      ensures forall k :: 0 <= k < |boards| ==> boards[k] == if old(boards)[k].id == boardId then r.value else old(boards)[k]
    {
      match FindBoard(boards, boardId)
      case None =>
        r := None;
      case Some(k) =>
        var b := Edited(boards[k], title, content);
        boards := boards[k := b];
        r := Some(b);
    }

    /** `delete_board` (lines 51-57): removes the row and reports whether there was one; image rows stay. */
    method DeleteBoard(boardId: int) returns (deleted: bool)
      requires Valid()
      modifies this
      ensures Valid() && images == old(images) && nextId == old(nextId)
      ensures deleted <==> old(GetBoard(boardId)).Some?
      ensures forall b :: b in boards <==> b in old(boards) && b.id != boardId
      ensures GetBoard(boardId).None?
    {
      match FindBoard(boards, boardId)
      case None =>
        deleted := false;
      case Some(k) =>
        RemoveRow(boards, k);
        boards := boards[..k] + boards[k + 1..];
        deleted := true;
    }
  }
}
