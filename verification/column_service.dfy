/** The in-memory column repository (`ColumnService`). Columns carry a text
    id chosen by the caller or generated from the clock, and `getAll`
    returns them ordered by `position`. */
module ColumnService {
  import opened Wrappers
  import opened Sequences
  import Text

  /** A stored column record. */
  datatype Column = Column(id: string, title: string, position: int)

  /** A `create` payload; only `id`, `title` and `position` are read. */
  datatype ColumnDraft = ColumnDraft(id: Option<string>, title: string, position: Option<int>)

  /** An `update` payload: each field given (Some) or absent (None). */
  datatype ColumnPatch = ColumnPatch(id: Option<string>, title: Option<string>, position: Option<int>)

  function IdOf(c: Column): string { c.id }

  /** No two columns share an `id`. */
  predicate UniqueIds(columns: seq<Column>) { UniqueKeys(columns, IdOf) }

  /** The message `getById`, `update` and `delete` throw for an absent id. */
  function NotFound(id: string): string {
    "Column with id " + id + " not found"
  }

  /** The id `create` generates at clock reading `millis` (`Date.now()`). */
  function GeneratedId(millis: int): string {
    "column-" + Text.IntToString(millis)
  }

  /** Positions never decrease along `s`. */
  predicate SortedByPosition(s: seq<Column>) {
    forall i, j :: 0 <= i < j < |s| ==> s[i].position <= s[j].position
  }

  /** The columns of `s` at position `p`, in their order in `s`. */
  function AtPosition(s: seq<Column>, p: int): (r: seq<Column>)
    ensures |r| <= |s|
  {
    if |s| == 0 then []
    else (if s[0].position == p then [s[0]] else []) + AtPosition(s[1..], p)
  }

  /** `c` placed into the sorted `s` before the first column whose position
      is not smaller than its own. */
  function Insert(c: Column, s: seq<Column>): (r: seq<Column>)
    requires SortedByPosition(s)
    ensures SortedByPosition(r)
    ensures multiset(r) == multiset(s) + multiset{c}
    ensures |r| == |s| + 1
    ensures forall i :: 0 <= i < |r| ==> r[i] == c || r[i] in s
  {
    if |s| == 0 || c.position <= s[0].position then [c] + s
    else
      var rest := Insert(c, s[1..]);
      assert s == [s[0]] + s[1..];
      assert forall i :: 0 <= i < |rest| ==> rest[i].position >= s[0].position;
      [s[0]] + rest
  }

  /** Inserting `c` puts it before every column of the same position. */
  lemma {:induction false} InsertAtPosition(c: Column, s: seq<Column>, p: int)
    requires SortedByPosition(s)
    ensures AtPosition(Insert(c, s), p) == (if c.position == p then [c] else []) + AtPosition(s, p)
    decreases |s|
  {
    if |s| == 0 || c.position <= s[0].position {
      assert ([c] + s)[1..] == s;
    } else {
      var rest := Insert(c, s[1..]);
      InsertAtPosition(c, s[1..], p);
      var r := [s[0]] + rest;
      assert r[1..] == rest;
      assert AtPosition(r, p) == (if s[0].position == p then [s[0]] else []) + AtPosition(rest, p);
      assert AtPosition(s, p) == (if s[0].position == p then [s[0]] else []) + AtPosition(s[1..], p);
      if s[0].position == p {
        assert c.position != p;
      } else if c.position == p {
        assert AtPosition(s, p) == AtPosition(s[1..], p);
      } else {
        assert AtPosition(rest, p) == AtPosition(s[1..], p);
      }
    }
  }

  /** `[...columns].sort((a, b) => a.position - b.position)`: a stable sort
      by ascending position (ECMAScript requires `sort` to be stable). */
  function SortByPosition(s: seq<Column>): (r: seq<Column>)
    ensures SortedByPosition(r)
    ensures multiset(r) == multiset(s)
    ensures |r| == |s|
  {
    if |s| == 0 then []
    else
      assert s == [s[0]] + s[1..];
      Insert(s[0], SortByPosition(s[1..]))
  }

  /** The sort is stable: the columns at any one position come out in the
      order they are stored in. */
  lemma {:induction false} SortIsStable(s: seq<Column>, p: int)
    ensures AtPosition(SortByPosition(s), p) == AtPosition(s, p)
    decreases |s|
  {
    if |s| > 0 {
      SortIsStable(s[1..], p);
      InsertAtPosition(s[0], SortByPosition(s[1..]), p);
    }
  }

  /** A store already in position order is returned in that same order. */
  lemma {:induction false} SortKeepsSorted(s: seq<Column>)
    requires SortedByPosition(s)
    ensures SortByPosition(s) == s
    decreases |s|
  {
    if |s| > 0 {
      assert SortedByPosition(s[1..]) by {
        forall i, j | 0 <= i < j < |s[1..]| ensures s[1..][i].position <= s[1..][j].position {
          assert s[1..][i] == s[i + 1] && s[1..][j] == s[j + 1];
        }
      }
      SortKeepsSorted(s[1..]);
      assert s == [s[0]] + s[1..];
    }
  }

  /** `getAll`: the store ordered by position, columns of equal position in
      their stored order; the store keeps its own order. */
  function GetAll(columns: seq<Column>): (r: seq<Column>)
    ensures SortedByPosition(r)
    ensures multiset(r) == multiset(columns)
    ensures forall p :: AtPosition(r, p) == AtPosition(columns, p)
  {
    assert forall p :: AtPosition(SortByPosition(columns), p) == AtPosition(columns, p) by {
      forall p ensures AtPosition(SortByPosition(columns), p) == AtPosition(columns, p) {
        SortIsStable(columns, p);
      }
    }
    SortByPosition(columns)
  }

  /** `getById`: the first column whose id is exactly `id`. */
  function GetById(columns: seq<Column>, id: string): (r: Result<Column>)
    ensures r.Ok? <==> exists i :: 0 <= i < |columns| && columns[i].id == id
    ensures r.Ok? ==> r.value.id == id && r.value in columns
    ensures r.Ok? ==> exists i :: 0 <= i < |columns| && columns[i] == r.value && forall j :: 0 <= j < i ==> columns[j].id != id
    ensures r.Err? ==> r.message == NotFound(id)
  {
    match FirstIndex(columns, IdOf, id)
    case None => Err(NotFound(id))
    case Some(i) => Ok(columns[i])
  }

  /** `create`: `{ id: payload.id || generated, title, position:
      payload.position || count + 1 }` appended to the store. */
  function Create(columns: seq<Column>, draft: ColumnDraft, millis: int): (r: (seq<Column>, Column))
    ensures r.0 == columns + [r.1]
    ensures r.1.title == draft.title
    ensures draft.id.Some? && draft.id.value != "" ==> r.1.id == draft.id.value
    ensures draft.id.None? || draft.id.value == "" ==> r.1.id == GeneratedId(millis)
    ensures draft.position.Some? && draft.position.value != 0 ==> r.1.position == draft.position.value
    ensures draft.position.None? || draft.position.value == 0 ==> r.1.position == |columns| + 1
  {
    var c := Column(
      TextOr(draft.id, GeneratedId(millis)),
      draft.title,
      NumberOr(draft.position, |columns| + 1));
    (columns + [c], c)
  }

  /** `update`: the first column with the id becomes `{ ...old, ...payload, id }`. */
  function Update(columns: seq<Column>, id: string, p: ColumnPatch): (r: Reply<Column>)
    ensures match FirstIndex(columns, IdOf, id)
      case None => r == Reply(columns, Err(NotFound(id)))
      case Some(i) =>
        && r.result.Ok?
        && r.store == columns[i := r.result.value]
        && r.result.value.id == id
        && r.result.value.title == p.title.GetOr(columns[i].title)
        && r.result.value.position == p.position.GetOr(columns[i].position)
  {
    match FirstIndex(columns, IdOf, id)
    case None => Reply(columns, Err(NotFound(id)))
    case Some(i) =>
      var prior := columns[i];
      var c := Column(id, p.title.GetOr(prior.title), p.position.GetOr(prior.position));
      Reply(columns[i := c], Ok(c))
  }

  /** `delete`: the first column with the id is spliced out and returned. */
  function Delete(columns: seq<Column>, id: string): (r: Reply<Column>)
    ensures (forall j :: 0 <= j < |columns| ==> columns[j].id != id) ==> r == Reply(columns, Err(NotFound(id)))
    ensures (exists j :: 0 <= j < |columns| && columns[j].id == id) ==>
      && r.result.Ok? && r.result.value.id == id
      && |r.store| == |columns| - 1
      && multiset(r.store) + multiset{r.result.value} == multiset(columns)
      && IsSubsequence(r.store, columns)
    ensures (exists j :: 0 <= j < |columns| && columns[j].id == id) ==>
      exists i :: && 0 <= i < |columns| && r.result == Ok(columns[i])
                  && (forall j :: 0 <= j < i ==> columns[j].id != id)
                  && r.store == columns[..i] + columns[i + 1..]
  {
    match FirstIndex(columns, IdOf, id)
    case None => Reply(columns, Err(NotFound(id)))
    case Some(i) =>
      RemoveAtSubsequence(columns, i);
      Reply(RemoveAt(columns, i), Ok(columns[i]))
  }

  /** Deleting a column a create just added under a new id gives the old
      store back. */
  lemma DeleteUndoesCreate(columns: seq<Column>, d: ColumnDraft, millis: int)
    requires forall j :: 0 <= j < |columns| ==> columns[j].id != Create(columns, d, millis).1.id
    ensures var (s, c) := Create(columns, d, millis);
            Delete(s, c.id) == Reply(columns, Ok(c))
  {
    var (s, c) := Create(columns, d, millis);
    assert IdOf(s[|columns|]) == c.id;
    assert FirstIndex(s, IdOf, c.id) == Some(|columns|);
    assert RemoveAt(s, |columns|) == columns;
  }

  /** After a create, `getAll` lists the new column and one column more than before. */
  lemma CreatedIsListed(columns: seq<Column>, d: ColumnDraft, millis: int)
    ensures var (s, c) := Create(columns, d, millis);
            c in GetAll(s) && |GetAll(s)| == |columns| + 1
  {
    var (s, c) := Create(columns, d, millis);
    assert c in multiset(s);
  }

}
