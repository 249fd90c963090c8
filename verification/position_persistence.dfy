/** Persisting a column reorder. `handleColumnDrop` sends the renumbered
    positions to `columnService.updatePositions`, which the column service
    does not define: the call throws, the handler's catch reloads, and the
    reload reads back the unchanged store. This module models that path as
    written, and the batch update the handler evidently expects, with the
    proof that reloading after it shows exactly the order the user made. */
module PositionPersistence {
  import opened Wrappers
  import opened Sequences
  import ColumnService
  import KanbanBoard

  type Column = ColumnService.Column
  type PositionUpdate = KanbanBoard.PositionUpdate
  type BoardState = KanbanBoard.BoardState

  // ---------------------------------------------------------------------
  // As written

  /** A column drop followed by what the handler does when the position
      call fails, as it always does here: the state is reloaded from the
      services (`loadData`, which succeeds when `reloaded`). */
  function AsWrittenReorder(st: BoardState, targetId: string, taskStore: seq<KanbanBoard.Task>,
                            columnStore: seq<Column>, boardId: Option<int>, reloaded: bool): (r: BoardState)
    ensures r.draggedColumn.None? && !r.isDraggingColumn
    ensures KanbanBoard.DropIndices(st.columns, st.draggedColumn, targetId).Some?
            && boardId.Some? && boardId.value != 0 && reloaded ==>
      r.columns == ColumnService.GetAll(columnStore)
  {
    var h := KanbanBoard.ColumnDrop(st, targetId, false);
    if h.reload then KanbanBoard.LoadData(h.state, boardId, taskStore, columnStore, reloaded)
    else h.state
  }

  /** The documented reorder, as written: dropping C3 on C1 in a loaded
      board [C1, C2, C3] shows [C3, C1, C2] for a moment, but the reload
      brings back [C1, C2, C3] with their old positions. */
  lemma ReorderIsLost(st: BoardState, c1: Column, c2: Column, c3: Column,
                      taskStore: seq<KanbanBoard.Task>)
    requires c1.id != c2.id && c1.id != c3.id && c2.id != c3.id
    requires c1.position == 1 && c2.position == 2 && c3.position == 3
    requires st.columns == [c1, c2, c3] && st.draggedColumn == Some(c3)
    ensures KanbanBoard.ColumnDrop(st, c1.id, false).state.columns
            == [c3.(position := 1), c1.(position := 2), c2.(position := 3)]
    ensures AsWrittenReorder(st, c1.id, taskStore, [c1, c2, c3], Some(1), true).columns == [c1, c2, c3]
    ensures [c1, c2, c3] != [c3.(position := 1), c1.(position := 2), c2.(position := 3)]
  {
    ShownBeforeReload(st, c1, c2, c3);
    ReloadedOrder(st, c1, c2, c3, taskStore);
    assert [c1, c2, c3][0] != [c3.(position := 1), c1.(position := 2), c2.(position := 3)][0];
  }

  /** Before the reload the board shows the reorder. */
  lemma ShownBeforeReload(st: BoardState, c1: Column, c2: Column, c3: Column)
    requires c1.id != c2.id && c1.id != c3.id && c2.id != c3.id
    requires st.columns == [c1, c2, c3] && st.draggedColumn == Some(c3)
    ensures KanbanBoard.ColumnDrop(st, c1.id, false).state.columns
            == [c3.(position := 1), c1.(position := 2), c2.(position := 3)]
  {
    KanbanBoard.ExampleIndices(c1, c2, c3);
    KanbanBoard.ExampleMove(c1, c2, c3);
    KanbanBoard.ExampleRenumber(c1, c2, c3);
  }

  /** The reload reads the store back in its own, unchanged order. */
  lemma ReloadedOrder(st: BoardState, c1: Column, c2: Column, c3: Column,
                      taskStore: seq<KanbanBoard.Task>)
    requires c1.id != c2.id && c1.id != c3.id && c2.id != c3.id
    requires c1.position == 1 && c2.position == 2 && c3.position == 3
    requires st.columns == [c1, c2, c3] && st.draggedColumn == Some(c3)
    ensures AsWrittenReorder(st, c1.id, taskStore, [c1, c2, c3], Some(1), true).columns == [c1, c2, c3]
  {
    KanbanBoard.ExampleIndices(c1, c2, c3);
    ColumnService.SortKeepsSorted([c1, c2, c3]);
  }

  // ---------------------------------------------------------------------
  // Corrected: a batch position update on the column service

  function EntryId(u: PositionUpdate): string { u.id }

  function PositionOf(c: Column): int { c.position }

  /** The payload `update` receives for one entry. */
  function PositionPatch(u: PositionUpdate): ColumnService.ColumnPatch {
    ColumnService.ColumnPatch(None, None, Some(u.position))
  }

  /** `updatePositions(batch)`: every entry is applied in turn as
      `update(id, { position })`; an entry whose id is absent fails on its
      own and the others still apply. Returns the store and one answer per
      entry. */
  function UpdatePositions(columns: seq<Column>, batch: seq<PositionUpdate>): (r: (seq<Column>, seq<Result<Column>>))
    ensures |r.0| == |columns| && |r.1| == |batch|
    ensures forall j :: 0 <= j < |columns| ==> r.0[j].id == columns[j].id && r.0[j].title == columns[j].title
    ensures forall k :: 0 <= k < |batch| ==>
      (r.1[k].Ok? <==> exists j :: 0 <= j < |columns| && columns[j].id == batch[k].id)
    decreases |batch|
  {
    if |batch| == 0 then (columns, [])
    else
      var first := ColumnService.Update(columns, batch[0].id, PositionPatch(batch[0]));
      var rest := UpdatePositions(first.store, batch[1..]);
      assert forall j :: 0 <= j < |columns| ==> first.store[j].id == columns[j].id;
      (rest.0, [first.result] + rest.1)
  }

  /** The position the entries give the column `id`, when its position
      before them is `d`: the last entry for `id` wins. */
  function PositionFor(batch: seq<PositionUpdate>, id: string, d: int): int
    decreases |batch|
  {
    if |batch| == 0 then d
    else PositionFor(batch[1..], id, if batch[0].id == id then batch[0].position else d)
  }

  /** In a store without repeated ids, one `update` of a position changes
      exactly the column with that id, and only its position. */
  lemma UpdateOnePosition(columns: seq<Column>, u: PositionUpdate)
    requires ColumnService.UniqueIds(columns)
    ensures var s := ColumnService.Update(columns, u.id, PositionPatch(u)).store;
            |s| == |columns|
            && forall j :: 0 <= j < |columns| ==>
                 s[j] == columns[j].(position := if columns[j].id == u.id then u.position else columns[j].position)
  {
    match FirstIndex(columns, ColumnService.IdOf, u.id)
    case None =>
    case Some(i) =>
      forall j | 0 <= j < |columns| && j != i ensures columns[j].id != u.id {
        assert ColumnService.IdOf(columns[j]) != ColumnService.IdOf(columns[i]);
      }
  }

  /** Applying a batch to a store without repeated ids changes every
      column's position to the one the batch gives it, and nothing else. */
  lemma {:induction false} UpdatePositionsEffect(columns: seq<Column>, batch: seq<PositionUpdate>)
    requires ColumnService.UniqueIds(columns)
    ensures forall j :: 0 <= j < |columns| ==>
      UpdatePositions(columns, batch).0[j]
        == columns[j].(position := PositionFor(batch, columns[j].id, columns[j].position))
    decreases |batch|
  {
    if |batch| > 0 {
      var s1 := ColumnService.Update(columns, batch[0].id, PositionPatch(batch[0])).store;
      UpdateOnePosition(columns, batch[0]);
      assert ColumnService.UniqueIds(s1) by {
        forall i, j | 0 <= i < j < |s1| ensures ColumnService.IdOf(s1[i]) != ColumnService.IdOf(s1[j]) {
          assert ColumnService.IdOf(columns[i]) != ColumnService.IdOf(columns[j]);
        }
      }
      UpdatePositionsEffect(s1, batch[1..]);
      forall j | 0 <= j < |columns|
        ensures UpdatePositions(columns, batch).0[j]
          == columns[j].(position := PositionFor(batch, columns[j].id, columns[j].position))
      {
        assert s1[j].id == columns[j].id;
      }
    }
  }

  /** An id no entry names keeps its position. */
  lemma {:induction false} PositionForAbsent(batch: seq<PositionUpdate>, id: string, d: int)
    requires forall k :: 0 <= k < |batch| ==> batch[k].id != id
    ensures PositionFor(batch, id, d) == d
    decreases |batch|
  {
    if |batch| > 0 {
      assert forall k :: 0 <= k < |batch[1..]| ==> batch[1..][k] == batch[k + 1];
      PositionForAbsent(batch[1..], id, d);
    }
  }

  /** In a batch that names each id once, an id takes its entry's position. */
  lemma {:induction false} PositionForUnique(batch: seq<PositionUpdate>, k: nat, d: int)
    requires UniqueKeys(batch, EntryId) && k < |batch|
    ensures PositionFor(batch, batch[k].id, d) == batch[k].position
    decreases |batch|
  {
    var id := batch[k].id;
    assert forall m :: 0 <= m < |batch[1..]| ==> batch[1..][m] == batch[m + 1];
    if k == 0 {
      forall m | 0 <= m < |batch[1..]| ensures batch[1..][m].id != id {
        assert EntryId(batch[0]) != EntryId(batch[m + 1]);
      }
      PositionForAbsent(batch[1..], id, batch[0].position);
    } else {
      assert EntryId(batch[0]) != EntryId(batch[k]);
      assert UniqueKeys(batch[1..], EntryId) by {
        forall i, j | 0 <= i < j < |batch[1..]| ensures EntryId(batch[1..][i]) != EntryId(batch[1..][j]) {
          assert EntryId(batch[i + 1]) != EntryId(batch[j + 1]);
        }
      }
      PositionForUnique(batch[1..], k - 1, d);
    }
  }

  // ---------------------------------------------------------------------
  // Multiset facts for keys

  /** A value at two indices is counted at least twice. */
  lemma CountTwice<R>(s: seq<R>, i: nat, j: nat)
    requires i < j < |s| && s[i] == s[j]
    ensures multiset(s)[s[i]] >= 2
  {
    assert s == s[..j] + s[j..];
    assert s[i] in s[..j];
    assert s[j] == s[j..][0];
    assert multiset(s) == multiset(s[..j]) + multiset(s[j..]);
  }

  /** With keys unique, no value is counted twice. */
  lemma {:induction false} CountAtMostOnce<R, K>(s: seq<R>, key: R -> K, v: R)
    requires UniqueKeys(s, key)
    ensures multiset(s)[v] <= 1
    decreases |s|
  {
    if |s| > 0 {
      assert s == [s[0]] + s[1..];
      assert forall m :: 0 <= m < |s[1..]| ==> s[1..][m] == s[m + 1];
      assert UniqueKeys(s[1..], key) by {
        forall i, j | 0 <= i < j < |s[1..]| ensures key(s[1..][i]) != key(s[1..][j]) {
          assert key(s[i + 1]) != key(s[j + 1]);
        }
      }
      CountAtMostOnce(s[1..], key, v);
      if s[0] == v {
        forall m | 0 <= m < |s[1..]| ensures s[1..][m] != v {
          assert key(s[0]) != key(s[m + 1]);
        }
        assert v !in multiset(s[1..]);
      }
    }
  }

  /** Unique keys survive any rearrangement of the same values. */
  lemma UniqueKeysTransfer<R, K>(s: seq<R>, t: seq<R>, key: R -> K)
    requires UniqueKeys(s, key) && multiset(s) == multiset(t)
    ensures UniqueKeys(t, key)
  {
    forall i, j | 0 <= i < j < |t| ensures key(t[i]) != key(t[j]) {
      assert t[i] in multiset(s) && t[j] in multiset(s);
      if t[i] == t[j] {
        CountTwice(t, i, j);
        CountAtMostOnce(s, key, t[i]);
      } else {
        var p :| 0 <= p < |s| && s[p] == t[i];
        var q :| 0 <= q < |s| && s[q] == t[j];
      }
    }
  }

  // ---------------------------------------------------------------------
  // Ordered sequences with the same members

  /** Positions strictly increase along `s`. */
  predicate StrictlyByPosition(s: seq<Column>) {
    forall i, j :: 0 <= i < j < |s| ==> s[i].position < s[j].position
  }

  /** Two strictly position-ordered sequences with the same members are equal. */
  lemma {:induction false} StrictlyOrderedUnique(a: seq<Column>, b: seq<Column>)
    requires StrictlyByPosition(a) && StrictlyByPosition(b)
    requires |a| == |b| && forall x :: x in a <==> x in b
    ensures a == b
    decreases |a|
  {
    if |a| > 0 {
      SameFirst(a, b);
      SameRest(a, b);
      StrictlyOrderedUnique(a[1..], b[1..]);
      assert a == [a[0]] + a[1..] && b == [b[0]] + b[1..];
    }
  }

  /** Strictly ordered sequences with the same members start alike. */
  lemma SameFirst(a: seq<Column>, b: seq<Column>)
    requires StrictlyByPosition(a) && StrictlyByPosition(b)
    requires |a| > 0 && |b| > 0 && forall x :: x in a <==> x in b
    ensures a[0] == b[0]
  {
    assert a[0] in b && b[0] in a;
    var k :| 0 <= k < |b| && b[k] == a[0];
    var m :| 0 <= m < |a| && a[m] == b[0];
    assert a[0].position <= a[m].position && b[0].position <= b[k].position;
    assert b[k].position == b[0].position;
  }

  /** Past a shared first element, the rests have the same members and stay
      strictly ordered. */
  lemma SameRest(a: seq<Column>, b: seq<Column>)
    requires StrictlyByPosition(a) && StrictlyByPosition(b)
    requires |a| > 0 && |b| > 0 && a[0] == b[0] && forall x :: x in a <==> x in b
    ensures StrictlyByPosition(a[1..]) && StrictlyByPosition(b[1..])
    ensures forall x :: x in a[1..] <==> x in b[1..]
  {
    StrictTail(a);
    StrictTail(b);
    forall x | x in a[1..] ensures x in b[1..] {
      RestMember(a, b, x);
    }
    forall x | x in b[1..] ensures x in a[1..] {
      RestMember(b, a, x);
    }
  }

  lemma StrictTail(a: seq<Column>)
    requires StrictlyByPosition(a) && |a| > 0
    ensures StrictlyByPosition(a[1..])
  {
    forall i, j | 0 <= i < j < |a[1..]| ensures a[1..][i].position < a[1..][j].position {
      assert a[1..][i] == a[i + 1] && a[1..][j] == a[j + 1];
    }
  }

  lemma RestMember(a: seq<Column>, b: seq<Column>, x: Column)
    requires StrictlyByPosition(a) && |a| > 0 && |b| > 0 && a[0] == b[0]
    requires x in a[1..] && x in b
    ensures x in b[1..]
  {
    var i :| 0 <= i < |a[1..]| && a[1..][i] == x;
    assert a[0].position < a[i + 1].position;
    var k :| 0 <= k < |b| && b[k] == x;
    assert k != 0;
    assert b[1..][k - 1] == x;
  }

  /** A position-sorted sequence whose positions are all different is
      strictly ordered. */
  lemma SortedDistinctIsStrict(s: seq<Column>)
    requires ColumnService.SortedByPosition(s) && UniqueKeys(s, PositionOf)
    ensures StrictlyByPosition(s)
  {
    forall i, j | 0 <= i < j < |s| ensures s[i].position < s[j].position {
      assert PositionOf(s[i]) != PositionOf(s[j]);
    }
  }

  // ---------------------------------------------------------------------
  // The corrected reorder keeps what the user sees

  /** The renumbered list: each column at its 1-based place. */
  lemma RenumberedAt(moved: seq<Column>, k: nat)
    requires k < |moved|
    ensures k < |KanbanBoard.Renumber(moved)|
    ensures KanbanBoard.Renumber(moved)[k] == moved[k].(position := k + 1)
  {
    assert KanbanBoard.Unpositioned(KanbanBoard.Renumber(moved)[k]) == KanbanBoard.Unpositioned(moved[k]);
  }

  /** The batch a renumbered rearrangement sends names each id once. */
  lemma BatchNamesIdsOnce(moved: seq<Column>)
    requires UniqueKeys(moved, ColumnService.IdOf)
    ensures UniqueKeys(KanbanBoard.PositionsOf(KanbanBoard.Renumber(moved)), EntryId)
    ensures forall k :: 0 <= k < |moved| ==>
      KanbanBoard.PositionsOf(KanbanBoard.Renumber(moved))[k] == KanbanBoard.PositionUpdate(moved[k].id, k + 1)
  {
    var batch := KanbanBoard.PositionsOf(KanbanBoard.Renumber(moved));
    forall k | 0 <= k < |moved| ensures batch[k] == KanbanBoard.PositionUpdate(moved[k].id, k + 1) {
      RenumberedAt(moved, k);
    }
    forall i, j | 0 <= i < j < |batch| ensures EntryId(batch[i]) != EntryId(batch[j]) {
      assert ColumnService.IdOf(moved[i]) != ColumnService.IdOf(moved[j]);
    }
  }

  /** The stored column `j`, once the batch is applied, is the shown column
      at the place `k` where the rearrangement put it. */
  lemma StoredBecomesShown(store: seq<Column>, moved: seq<Column>, j: nat) returns (k: nat)
    requires ColumnService.UniqueIds(store) && multiset(moved) == multiset(store) && j < |store|
    requires UniqueKeys(moved, ColumnService.IdOf)
    ensures k < |moved| && moved[k] == store[j]
    ensures UpdatePositions(store, KanbanBoard.PositionsOf(KanbanBoard.Renumber(moved))).0[j]
            == KanbanBoard.Renumber(moved)[k]
  {
    var batch := KanbanBoard.PositionsOf(KanbanBoard.Renumber(moved));
    assert store[j] in multiset(moved);
    k :| 0 <= k < |moved| && moved[k] == store[j];
    BatchNamesIdsOnce(moved);
    UpdatePositionsEffect(store, batch);
    PositionForUnique(batch, k, store[j].position);
    RenumberedAt(moved, k);
  }

  /** Renumbering a rearrangement of the store and applying the resulting
      batch to the store gives every stored column exactly its shown
      record: the two hold the same columns, every entry is answered, and no
      two stored columns share a position. */
  lemma BatchMatchesShown(store: seq<Column>, moved: seq<Column>)
    requires ColumnService.UniqueIds(store) && multiset(moved) == multiset(store)
    ensures var shown := KanbanBoard.Renumber(moved);
            var u := UpdatePositions(store, KanbanBoard.PositionsOf(shown));
            && (forall j :: 0 <= j < |u.0| ==> u.0[j] in shown)
            && (forall k :: 0 <= k < |shown| ==> shown[k] in u.0)
            && UniqueKeys(u.0, PositionOf)
            && (forall k :: 0 <= k < |u.1| ==> u.1[k].Ok?)
  {
    StoredAreShown(store, moved);
    ShownAreStored(store, moved);
    StoredPositionsDistinct(store, moved);
    BatchAllApplied(store, moved);
  }

  lemma StoredAreShown(store: seq<Column>, moved: seq<Column>)
    requires ColumnService.UniqueIds(store) && multiset(moved) == multiset(store)
    ensures var shown := KanbanBoard.Renumber(moved);
            var u := UpdatePositions(store, KanbanBoard.PositionsOf(shown));
            forall j :: 0 <= j < |u.0| ==> u.0[j] in shown
  {
    var u := UpdatePositions(store, KanbanBoard.PositionsOf(KanbanBoard.Renumber(moved)));
    UniqueKeysTransfer(store, moved, ColumnService.IdOf);
    forall j | 0 <= j < |u.0| ensures u.0[j] in KanbanBoard.Renumber(moved) {
      var k := StoredBecomesShown(store, moved, j);
    }
  }

  lemma ShownAreStored(store: seq<Column>, moved: seq<Column>)
    requires ColumnService.UniqueIds(store) && multiset(moved) == multiset(store)
    ensures var shown := KanbanBoard.Renumber(moved);
            var u := UpdatePositions(store, KanbanBoard.PositionsOf(shown));
            forall k :: 0 <= k < |shown| ==> shown[k] in u.0
  {
    var shown := KanbanBoard.Renumber(moved);
    forall k | 0 <= k < |shown| ensures shown[k] in UpdatePositions(store, KanbanBoard.PositionsOf(shown)).0 {
      ShownIsStored(store, moved, k);
    }
  }

  /** The shown column `k` is the updated record of some stored column. */
  lemma ShownIsStored(store: seq<Column>, moved: seq<Column>, k: nat)
    requires ColumnService.UniqueIds(store) && multiset(moved) == multiset(store)
    requires k < |KanbanBoard.Renumber(moved)|
    ensures KanbanBoard.Renumber(moved)[k] in UpdatePositions(store, KanbanBoard.PositionsOf(KanbanBoard.Renumber(moved))).0
  {
    var u := UpdatePositions(store, KanbanBoard.PositionsOf(KanbanBoard.Renumber(moved)));
    UniqueKeysTransfer(store, moved, ColumnService.IdOf);
    assert moved[k] in multiset(store);
    var j :| 0 <= j < |store| && store[j] == moved[k];
    var k' := StoredBecomesShown(store, moved, j);
    assert ColumnService.IdOf(moved[k']) == ColumnService.IdOf(moved[k]);
    assert |u.0| == |store|;
    assert u.0[j] == KanbanBoard.Renumber(moved)[k];
  }

  lemma StoredPositionsDistinct(store: seq<Column>, moved: seq<Column>)
    requires ColumnService.UniqueIds(store) && multiset(moved) == multiset(store)
    ensures UniqueKeys(UpdatePositions(store, KanbanBoard.PositionsOf(KanbanBoard.Renumber(moved))).0, PositionOf)
  {
    var u := UpdatePositions(store, KanbanBoard.PositionsOf(KanbanBoard.Renumber(moved)));
    UniqueKeysTransfer(store, moved, ColumnService.IdOf);
    forall i, j | 0 <= i < j < |u.0| ensures PositionOf(u.0[i]) != PositionOf(u.0[j]) {
      var ki := StoredBecomesShown(store, moved, i);
      var kj := StoredBecomesShown(store, moved, j);
      RenumberedAt(moved, ki);
      RenumberedAt(moved, kj);
      assert ColumnService.IdOf(store[i]) != ColumnService.IdOf(store[j]);
    }
  }

  lemma BatchAllApplied(store: seq<Column>, moved: seq<Column>)
    requires ColumnService.UniqueIds(store) && multiset(moved) == multiset(store)
    ensures var u := UpdatePositions(store, KanbanBoard.PositionsOf(KanbanBoard.Renumber(moved)));
            forall k :: 0 <= k < |u.1| ==> u.1[k].Ok?
  {
    var batch := KanbanBoard.PositionsOf(KanbanBoard.Renumber(moved));
    var u := UpdatePositions(store, batch);
    UniqueKeysTransfer(store, moved, ColumnService.IdOf);
    BatchNamesIdsOnce(moved);
    forall k | 0 <= k < |u.1| ensures u.1[k].Ok? {
      assert moved[k] in multiset(store);
      var j :| 0 <= j < |store| && store[j] == moved[k];
      assert store[j].id == batch[k].id;
    }
  }

  /** The reorder with the batch update in place: after a real column drop
      on a board loaded from a store without repeated ids, the batch the
      drop sends succeeds entry by entry, and reading the store back gives
      exactly the columns, order and positions the board shows. */
  lemma ReorderPersists(st: BoardState, targetId: string, store: seq<Column>)
    requires ColumnService.UniqueIds(store) && st.columns == ColumnService.GetAll(store)
    requires KanbanBoard.DropIndices(st.columns, st.draggedColumn, targetId).Some?
    ensures var h := KanbanBoard.ColumnDrop(st, targetId, true);
            var u := UpdatePositions(store, h.calls[0].batch);
            && !h.reload
            && (forall k :: 0 <= k < |u.1| ==> u.1[k].Ok?)
            && ColumnService.GetAll(u.0) == h.state.columns
  {
    var (src, tgt) := KanbanBoard.DropIndices(st.columns, st.draggedColumn, targetId).value;
    var moved := Move(st.columns, src, tgt);
    var shown := KanbanBoard.Renumber(moved);
    var h := KanbanBoard.ColumnDrop(st, targetId, true);
    assert h.state.columns == shown && h.calls[0].batch == KanbanBoard.PositionsOf(shown);
    BatchMatchesShown(store, moved);
    var u := UpdatePositions(store, KanbanBoard.PositionsOf(shown));
    var reread := ColumnService.GetAll(u.0);
    UniqueKeysTransfer(u.0, reread, PositionOf);
    SortedDistinctIsStrict(reread);
    forall x ensures x in reread <==> x in shown {
      assert x in reread <==> x in multiset(u.0);
    }
    StrictlyOrderedUnique(reread, shown);
  }

  /** Every entry of a batch answer succeeded. */
  predicate AllApplied(answers: seq<Result<Column>>) {
    forall k :: 0 <= k < |answers| ==> answers[k].Ok?
  }

  /** The reorder with the batch update in place: the column drop, its
      batch applied to the store, and the drop told whether every entry
      succeeded. Returns the board state and the store. */
  function CorrectedReorder(st: BoardState, targetId: string, store: seq<Column>): (r: (BoardState, seq<Column>))
    requires ColumnService.UniqueIds(store) && st.columns == ColumnService.GetAll(store)
    ensures ColumnService.GetAll(r.1) == r.0.columns
    ensures r.0.draggedColumn.None? && !r.0.isDraggingColumn
    ensures KanbanBoard.DensePositions(st.columns) ==> KanbanBoard.DensePositions(r.0.columns)
    ensures KanbanBoard.DropIndices(st.columns, st.draggedColumn, targetId).None? ==> r.1 == store
  {
    match KanbanBoard.DropIndices(st.columns, st.draggedColumn, targetId)
    case None => (KanbanBoard.ColumnDrop(st, targetId, true).state, store)
    case Some(_) =>
      ReorderPersists(st, targetId, store);
      var batch := KanbanBoard.ColumnDrop(st, targetId, true).calls[0].batch;
      var u := UpdatePositions(store, batch);
      (KanbanBoard.ColumnDrop(st, targetId, AllApplied(u.1)).state, u.0)
  }
}
