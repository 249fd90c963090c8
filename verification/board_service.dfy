/** The in-memory board repository (`BoardService`). Unlike tasks and labels,
    `create` lists the stored fields explicitly, and `update` stamps nothing. */
module BoardService {
  import opened Wrappers
  import opened Sequences
  import Ids

  /** An ISO timestamp; the clock is an input of the model. */
  type Stamp = string

  /** A stored board record. */
  datatype Board = Board(Id: int, name: string, description: string, color: string, createdAt: Stamp)

  /** A `create` payload. Only `name`, `description` and `color` are read;
      the `Id` and `createdAt` it may carry are ignored. */
  datatype BoardDraft = BoardDraft(
    Id: Option<int>,
    name: string,
    description: Option<string>,
    color: Option<string>,
    createdAt: Option<Stamp>)

  /** An `update` payload: each field given (Some) or absent (None). */
  datatype BoardPatch = BoardPatch(
    Id: Option<int>,
    name: Option<string>,
    description: Option<string>,
    color: Option<string>,
    createdAt: Option<Stamp>)

  /** The color a board gets when its payload has none. */
  const DefaultColor := "#5E72E4"

  /** The message `getById`, `update` and `delete` throw for an absent id. */
  const NotFound := "Board not found"

  function IdOf(b: Board): int { b.Id }

  /** `boards.map(b => b.Id)`. */
  function IdsOf(boards: seq<Board>): seq<int> { Keys(boards, IdOf) }

  /** `getAll`: a copy of the store, in stored order. */
  function GetAll(boards: seq<Board>): (r: seq<Board>)
    ensures |r| == |boards| && forall i :: 0 <= i < |r| ==> r[i] == boards[i]
  {
    boards
  }

  /** `getById`: the first board with the id, or 'Board not found'. */
  function GetById(boards: seq<Board>, id: int): (r: Result<Board>)
    ensures r.Ok? <==> exists i :: 0 <= i < |boards| && boards[i].Id == id
    ensures r.Ok? ==> r.value.Id == id && r.value in boards
    ensures r.Ok? ==> exists i :: 0 <= i < |boards| && boards[i] == r.value && forall j :: 0 <= j < i ==> boards[j].Id != id
    ensures r.Err? ==> r.message == NotFound
  {
    match FirstIndex(boards, IdOf, id)
    case None => Err(NotFound)
    case Some(i) => Ok(boards[i])
  }

  /** `create`: a board with a fresh id, the payload's name, its description
      or '', its color or the default color, stamped `now`, appended. */
  function Create(boards: seq<Board>, draft: BoardDraft, now: Stamp): (r: (seq<Board>, Board))
    ensures r.0 == boards + [r.1]
    ensures forall i :: 0 <= i < |boards| ==> boards[i].Id < r.1.Id
    ensures r.1.Id >= 1 && (r.1.Id == 1 || exists i :: 0 <= i < |boards| && boards[i].Id == r.1.Id - 1)
    ensures boards == [] ==> r.1.Id == 1
    ensures r.1.name == draft.name && r.1.createdAt == now
    ensures draft.description.Some? && draft.description.value != "" ==> r.1.description == draft.description.value
    ensures draft.description.None? || draft.description.value == "" ==> r.1.description == ""
    ensures draft.color.Some? && draft.color.value != "" ==> r.1.color == draft.color.value
    ensures draft.color.None? || draft.color.value == "" ==> r.1.color == DefaultColor
  {
    var b := Board(
      Ids.NextId(IdsOf(boards)),
      draft.name,
      TextOr(draft.description, ""),
      TextOr(draft.color, DefaultColor),
      now);
    (boards + [b], b)
  }

  /** `update`: the first board with the id becomes `{ ...old, ...payload, Id: id }`. */
  function Update(boards: seq<Board>, id: int, p: BoardPatch): (r: Reply<Board>)
    ensures match FirstIndex(boards, IdOf, id)
      case None => r == Reply(boards, Err(NotFound))
      case Some(i) =>
        && r.result.Ok?
        && r.store == boards[i := r.result.value]
        && r.result.value.Id == id
        && r.result.value.name == p.name.GetOr(boards[i].name)
        && r.result.value.description == p.description.GetOr(boards[i].description)
        && r.result.value.color == p.color.GetOr(boards[i].color)
        && r.result.value.createdAt == p.createdAt.GetOr(boards[i].createdAt)
  {
    match FirstIndex(boards, IdOf, id)
    case None => Reply(boards, Err(NotFound))
    case Some(i) =>
      var prior := boards[i];
      var b := Board(id, p.name.GetOr(prior.name), p.description.GetOr(prior.description),
                     p.color.GetOr(prior.color), p.createdAt.GetOr(prior.createdAt));
      Reply(boards[i := b], Ok(b))
  }

  /** `delete`: the first board with the id is spliced out and returned. */
  function Delete(boards: seq<Board>, id: int): (r: Reply<Board>)
    ensures (forall j :: 0 <= j < |boards| ==> boards[j].Id != id) ==> r == Reply(boards, Err(NotFound))
    ensures (exists j :: 0 <= j < |boards| && boards[j].Id == id) ==>
      && r.result.Ok? && r.result.value.Id == id
      && |r.store| == |boards| - 1
      && multiset(r.store) + multiset{r.result.value} == multiset(boards)
      && IsSubsequence(r.store, boards)
    ensures (exists j :: 0 <= j < |boards| && boards[j].Id == id) ==>
      exists i :: && 0 <= i < |boards| && r.result == Ok(boards[i])
                  && (forall j :: 0 <= j < i ==> boards[j].Id != id)
                  && r.store == boards[..i] + boards[i + 1..]
  {
    match FirstIndex(boards, IdOf, id)
    case None => Reply(boards, Err(NotFound))
    case Some(i) =>
      RemoveAtSubsequence(boards, i);
      Reply(RemoveAt(boards, i), Ok(boards[i]))
  }

  /** A payload `Id` can neither choose the id of a new board nor change the
      id of an existing one. */
  lemma PayloadCannotChooseId(boards: seq<Board>, d1: BoardDraft, d2: BoardDraft, now: Stamp,
                              id: int, p: BoardPatch)
    requires d1.Id != d2.Id && d1.(Id := None) == d2.(Id := None)
    requires p.Id.Some? && p.Id.value != id
    ensures Create(boards, d1, now) == Create(boards, d2, now)
    ensures Update(boards, id, p).result.Ok? ==> Update(boards, id, p).result.value.Id != p.Id.value
  {
  }

  /** Deleting the board a create just added gives the old store back. */
  lemma DeleteUndoesCreate(boards: seq<Board>, d: BoardDraft, now: Stamp)
    ensures var (s, b) := Create(boards, d, now);
            Delete(s, b.Id) == Reply(boards, Ok(b))
  {
    var (s, b) := Create(boards, d, now);
    assert IdOf(s[|boards|]) == b.Id;
    assert FirstIndex(s, IdOf, b.Id) == Some(|boards|);
    assert RemoveAt(s, |boards|) == boards;
  }

}
