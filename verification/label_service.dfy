/** The in-memory label repository (`LabelService`): the same repository
    pattern as tasks, over label records. */
module LabelService {
  import opened Wrappers
  import opened Sequences
  import Ids
  import Text

  /** An ISO timestamp; the clock is an input of the model. */
  type Stamp = string

  /** The descriptive fields of a label. */
  datatype LabelContent = LabelContent(name: string, color: string, description: string)

  /** A stored label record. */
  datatype Label = Label(Id: int, content: LabelContent, createdAt: Stamp, updatedAt: Stamp)

  /** A `create` payload, possibly carrying an `Id` and timestamps of its own. */
  datatype LabelDraft = LabelDraft(
    Id: Option<int>,
    content: LabelContent,
    createdAt: Option<Stamp>,
    updatedAt: Option<Stamp>)

  /** An `update` payload: each field given (Some) or absent (None). */
  datatype LabelPatch = LabelPatch(
    Id: Option<int>,
    name: Option<string>,
    color: Option<string>,
    description: Option<string>,
    createdAt: Option<Stamp>,
    updatedAt: Option<Stamp>)

  function IdOf(l: Label): int { l.Id }

  /** `labels.map(l => l.Id)`. */
  function IdsOf(labels: seq<Label>): seq<int> { Keys(labels, IdOf) }

  /** No two labels share an `Id`. */
  predicate UniqueIds(labels: seq<Label>) { UniqueKeys(labels, IdOf) }

  /** The message `getById`, `update` and `delete` throw for an absent id. */
  function NotFound(id: int): string {
    "Label with id " + Text.IntToString(id) + " not found"
  }

  /** `getAll`: a copy of the store, in stored order. */
  function GetAll(labels: seq<Label>): (r: seq<Label>)
    ensures |r| == |labels| && forall i :: 0 <= i < |r| ==> r[i] == labels[i]
  {
    labels
  }

  /** `getById`: the first label with the id, or the not-found error. */
  function GetById(labels: seq<Label>, id: int): (r: Result<Label>)
    ensures r.Ok? <==> exists i :: 0 <= i < |labels| && labels[i].Id == id
    ensures r.Ok? ==> r.value.Id == id && r.value in labels
    ensures r.Ok? ==> exists i :: 0 <= i < |labels| && labels[i] == r.value && forall j :: 0 <= j < i ==> labels[j].Id != id
    ensures r.Err? ==> r.message == NotFound(id)
  {
    match FirstIndex(labels, IdOf, id)
    case None => Err(NotFound(id))
    case Some(i) => Ok(labels[i])
  }

  /** `create`: `{ Id: max + 1, ...payload, createdAt: now, updatedAt: now }`
      appended to the store. */
  function Create(labels: seq<Label>, draft: LabelDraft, now: Stamp): (r: (seq<Label>, Label))
    ensures r.0 == labels + [r.1]
    ensures draft.Id.None? ==> forall i :: 0 <= i < |labels| ==> labels[i].Id < r.1.Id
    ensures draft.Id.None? ==> r.1.Id >= 1 && (r.1.Id == 1 || exists i :: 0 <= i < |labels| && labels[i].Id == r.1.Id - 1)
    ensures draft.Id.None? && labels == [] ==> r.1.Id == 1
    ensures draft.Id.Some? ==> r.1.Id == draft.Id.value
    ensures r.1.content == draft.content
    ensures r.1.createdAt == now && r.1.updatedAt == now
  {
    var l := Label(draft.Id.GetOr(Ids.NextId(IdsOf(labels))), draft.content, now, now);
    (labels + [l], l)
  }

  /** `{ ...old, ...payload }` restricted to the descriptive fields. */
  function Merge(c: LabelContent, p: LabelPatch): LabelContent {
    LabelContent(p.name.GetOr(c.name), p.color.GetOr(c.color), p.description.GetOr(c.description))
  }

  /** `update`: the first label with the id becomes
      `{ ...old, ...payload, Id: id, updatedAt: now }`; nothing else changes. */
  function Update(labels: seq<Label>, id: int, p: LabelPatch, now: Stamp): (r: Reply<Label>)
    ensures match FirstIndex(labels, IdOf, id)
      case None => r == Reply(labels, Err(NotFound(id)))
      case Some(i) =>
        && r.result.Ok?
        && r.store == labels[i := r.result.value]
        && r.result.value.Id == id
        && r.result.value.content == Merge(labels[i].content, p)
        && r.result.value.createdAt == p.createdAt.GetOr(labels[i].createdAt)
        && r.result.value.updatedAt == now
  {
    match FirstIndex(labels, IdOf, id)
    case None => Reply(labels, Err(NotFound(id)))
    case Some(i) =>
      var prior := labels[i];
      var l := Label(id, Merge(prior.content, p), p.createdAt.GetOr(prior.createdAt), now);
      Reply(labels[i := l], Ok(l))
  }

  /** `delete`: the first label with the id is spliced out and returned. */
  function Delete(labels: seq<Label>, id: int): (r: Reply<Label>)
    ensures (forall j :: 0 <= j < |labels| ==> labels[j].Id != id) ==> r == Reply(labels, Err(NotFound(id)))
    ensures (exists j :: 0 <= j < |labels| && labels[j].Id == id) ==>
      && r.result.Ok? && r.result.value.Id == id
      && |r.store| == |labels| - 1
      && multiset(r.store) + multiset{r.result.value} == multiset(labels)
      && IsSubsequence(r.store, labels)
    ensures (exists j :: 0 <= j < |labels| && labels[j].Id == id) ==>
      exists i :: && 0 <= i < |labels| && r.result == Ok(labels[i])
                  && (forall j :: 0 <= j < i ==> labels[j].Id != id)
                  && r.store == labels[..i] + labels[i + 1..]
  {
    match FirstIndex(labels, IdOf, id)
    case None => Reply(labels, Err(NotFound(id)))
    case Some(i) =>
      RemoveAtSubsequence(labels, i);
      Reply(RemoveAt(labels, i), Ok(labels[i]))
  }

  /** One call on the label service. */
  datatype LabelOp =
    | CreateLabel(draft: LabelDraft)
    | UpdateLabel(id: int, patch: LabelPatch)
    | DeleteLabel(id: int)

  /** The store after one call, whatever the call answered. */
  function Apply(labels: seq<Label>, op: LabelOp, now: Stamp): seq<Label> {
    match op
    case CreateLabel(d) => Create(labels, d, now).0
    case UpdateLabel(id, p) => Update(labels, id, p, now).store
    case DeleteLabel(id) => Delete(labels, id).store
  }

  /** The store after a sequence of calls, all at the clock reading `now`. */
  function Run(labels: seq<Label>, ops: seq<LabelOp>, now: Stamp): seq<Label>
    decreases |ops|
  {
    if |ops| == 0 then labels else Run(Apply(labels, ops[0], now), ops[1..], now)
  }

  /** The calls that let the service choose the id of every created label. */
  predicate AllocatesIds(ops: seq<LabelOp>) {
    forall k :: 0 <= k < |ops| && ops[k].CreateLabel? ==> ops[k].draft.Id.None?
  }

  /** A create without a payload `Id` keeps ids unique. */
  lemma CreateKeepsIdsUnique(labels: seq<Label>, d: LabelDraft, now: Stamp)
    requires UniqueIds(labels) && d.Id.None?
    ensures UniqueIds(Create(labels, d, now).0)
  {
    var (s, l) := Create(labels, d, now);
    forall i, j | 0 <= i < j < |s| ensures s[i].Id != s[j].Id {
      if j == |labels| {
        assert s[i] == labels[i] && s[j] == l;
      } else {
        assert s[i] == labels[i] && s[j] == labels[j];
      }
    }
  }

  /** An update keeps ids unique: the id it forces is the id it found. */
  lemma UpdateKeepsIdsUnique(labels: seq<Label>, id: int, p: LabelPatch, now: Stamp)
    requires UniqueIds(labels)
    ensures UniqueIds(Update(labels, id, p, now).store)
  {
    var s := Update(labels, id, p, now).store;
    forall i | 0 <= i < |s| ensures s[i].Id == labels[i].Id {
    }
  }

  /** A delete keeps ids unique. */
  lemma DeleteKeepsIdsUnique(labels: seq<Label>, id: int)
    requires UniqueIds(labels)
    ensures UniqueIds(Delete(labels, id).store)
  {
    match FirstIndex(labels, IdOf, id)
    case None =>
    case Some(k) =>
      var s := RemoveAt(labels, k);
      assert Delete(labels, id).store == s;
      forall i, j | 0 <= i < j < |s| ensures s[i].Id != s[j].Id {
        var i' := if i < k then i else i + 1;
        var j' := if j < k then j else j + 1;
        assert s[i] == labels[i'] && s[j] == labels[j'] && i' < j';
      }
  }

  /** Starting from unique ids, any run of creates without a payload `Id`,
      updates and deletes keeps the ids unique. */
  lemma {:induction false} RunKeepsIdsUnique(labels: seq<Label>, ops: seq<LabelOp>, now: Stamp)
    requires UniqueIds(labels) && AllocatesIds(ops)
    ensures UniqueIds(Run(labels, ops, now))
    decreases |ops|
  {
    if |ops| > 0 {
      match ops[0] {
        case CreateLabel(d) => CreateKeepsIdsUnique(labels, d, now);
        case UpdateLabel(id, p) => UpdateKeepsIdsUnique(labels, id, p, now);
        case DeleteLabel(id) => DeleteKeepsIdsUnique(labels, id);
      }
      assert AllocatesIds(ops[1..]) by {
        forall k | 0 <= k < |ops[1..]| && ops[1..][k].CreateLabel?
          ensures ops[1..][k].draft.Id.None?
        {
          assert ops[1..][k] == ops[k + 1];
        }
      }
      RunKeepsIdsUnique(Apply(labels, ops[0], now), ops[1..], now);
    }
  }

  /** Deleting the label a create just added gives the old store back. */
  lemma DeleteUndoesCreate(labels: seq<Label>, d: LabelDraft, now: Stamp)
    requires d.Id.None?
    ensures var (s, l) := Create(labels, d, now);
            Delete(s, l.Id) == Reply(labels, Ok(l))
  {
    var (s, l) := Create(labels, d, now);
    assert IdOf(s[|labels|]) == l.Id;
    assert FirstIndex(s, IdOf, l.Id) == Some(|labels|);
    assert RemoveAt(s, |labels|) == labels;
  }

}
