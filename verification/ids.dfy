/** Identifier allocation shared by the task, label and board services:
    `Math.max(...records.map(r => r.Id), 0) + 1`. */
module Ids {

  /** `Math.max(...ids, 0)`: the largest id, or 0 when there is none larger. */
  function MaxOrZero(ids: seq<int>): (m: int)
    ensures 0 <= m
    ensures forall i :: 0 <= i < |ids| ==> ids[i] <= m
    ensures m == 0 || m in ids
  {
    if |ids| == 0 then 0
    else
      var rest := MaxOrZero(ids[1..]);
      assert rest == 0 || rest in ids by {
        if rest != 0 {
          var k :| 0 <= k < |ids[1..]| && ids[1..][k] == rest;
          assert ids[k + 1] == rest;
        }
      }
      if ids[0] > rest then ids[0] else rest
  }

  /** The id the next created record receives. */
  function NextId(ids: seq<int>): (n: int)
    ensures n >= 1
    ensures forall i :: 0 <= i < |ids| ==> ids[i] < n
    ensures n != 1 ==> n - 1 in ids
  {
    MaxOrZero(ids) + 1
  }

  /** The three facts a create's contract states about a new id pin it to
      `NextId`: at least 1, above every id, and 1 or one past an existing id. */
  lemma NextIdDetermined(ids: seq<int>, n: int)
    requires n >= 1 && forall i :: 0 <= i < |ids| ==> ids[i] < n
    requires n == 1 || n - 1 in ids
    ensures n == NextId(ids)
  {
  }
}
