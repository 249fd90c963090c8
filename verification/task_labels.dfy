/** The label strip on a task card (`TaskLabels`): which labels of the
    label store a task shows, the first three of them, and the "+N more"
    overflow count. */
module TaskLabels {
  import opened Wrappers
  import opened Sequences
  import LabelService
  import TaskForm

  type Label = LabelService.Label

  /** At most this many labels are drawn. */
  const MaxVisible := 3

  /** `allLabels.filter(label => labels.includes(label.Id))`: the stored
      labels whose id the task lists, in store order. */
  function Shown(all: seq<Label>, ids: seq<int>): (r: seq<Label>)
    ensures forall i :: 0 <= i < |r| ==> r[i] in all && r[i].Id in ids
    ensures forall i :: 0 <= i < |all| && all[i].Id in ids ==> all[i] in r
    ensures IsSubsequence(r, all)
    ensures forall l :: multiset(r)[l] == if l.Id in ids then multiset(all)[l] else 0
  {
    Filter(all, (l: Label) => l.Id in ids)
  }

  /** `loadLabels`: the shown labels when `getAll` answers, none when it
      fails (None). */
  function Load(all: Option<seq<Label>>, ids: seq<int>): (r: seq<Label>)
    ensures all.None? ==> r == []
    ensures all.Some? ==> r == Shown(all.value, ids)
  {
    match all
    case None => []
    case Some(labels) => Shown(labels, ids)
  }

  /** The order and repetition of a task's label ids do not matter: two id
      lists with the same members show the same labels. */
  lemma ShownDependsOnMembersOnly(all: seq<Label>, ids1: seq<int>, ids2: seq<int>)
    requires forall x :: x in ids1 <==> x in ids2
    ensures Shown(all, ids1) == Shown(all, ids2)
  {
    FilterAgrees(all, (l: Label) => l.Id in ids1, (l: Label) => l.Id in ids2);
  }

  /** What the strip draws. */
  datatype Strip =
    | Nothing
    | Chips(visible: seq<Label>, more: Option<nat>)

  /** The render: nothing while loading or with no label to show; otherwise
      the first three labels, and "+N more" when N = n - 3 is positive. */
  function Render(loading: bool, data: seq<Label>): (r: Strip)
    ensures r.Nothing? <==> loading || |data| == 0
    ensures r.Chips? ==> |r.visible| <= MaxVisible && |r.visible| <= |data| && r.visible == data[..|r.visible|]
    ensures r.Chips? ==> (|r.visible| < MaxVisible ==> r.visible == data)
    ensures r.Chips? ==> (r.more.Some? <==> |data| > MaxVisible)
  {
    if loading || |data| == 0 then Nothing
    else
      var visible := if |data| <= MaxVisible then data else data[..MaxVisible];
      var remaining := |data| - MaxVisible;
      Chips(visible, if remaining > 0 then Some(remaining) else None)
  }

  /** Every shown label is counted once: the drawn chips plus the overflow
      number add up to the number of labels to show. */
  lemma RenderCountsEveryLabel(data: seq<Label>)
    requires |data| > 0
    ensures var r := Render(false, data);
            r.Chips? && |r.visible| + r.more.GetOr(0) == |data|
  {
  }

  /** Toggling a label on the task shows that label exactly when the store
      has it and it was not shown before; every other label keeps its state. */
  lemma ToggleFlipsOneLabel(all: seq<Label>, ids: seq<int>, labelId: int, l: Label)
    requires l in all
    ensures l.Id == labelId ==>
      (l in Shown(all, TaskForm.ToggleLabel(ids, labelId)) <==> l !in Shown(all, ids))
    ensures l.Id != labelId ==>
      (l in Shown(all, TaskForm.ToggleLabel(ids, labelId)) <==> l in Shown(all, ids))
  {
  }
}
