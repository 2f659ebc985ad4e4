/**
 * The `ORDER BY created_at DESC` of the list queries: the ids of a table,
 * each exactly once, newest first. Rows created at the same moment may come
 * in any order.
 */
module Ordering {

  /** The creation time of every row of a table, by id: what the list is ordered by. */
  function CreationTimes<Row>(rows: map<int, Row>, createdAt: Row -> int): (created: map<int, int>)
    ensures created.Keys == rows.Keys
    ensures forall k :: k in rows ==> created[k] == createdAt(rows[k])
  {
    map k | k in rows :: createdAt(rows[k])
  }

  /** `ids` lists rows of the table newest first. */
  predicate NewestFirst(ids: seq<int>, created: map<int, int>)
  {
    && (forall i :: 0 <= i < |ids| ==> ids[i] in created)
    && (forall i, j :: 0 <= i < j < |ids| ==> created[ids[i]] >= created[ids[j]])
  }

  /** `ids` names every row of the table exactly once. */
  predicate Enumerates(ids: seq<int>, created: map<int, int>)
  {
    && Distinct(ids)
    && (forall i :: 0 <= i < |ids| ==> ids[i] in created)
    && (forall k :: k in created ==> k in ids)
  }

  /** No id occurs twice. */
  predicate Distinct(ids: seq<int>)
  {
    forall i, j :: 0 <= i < j < |ids| ==> ids[i] != ids[j]
  }

  /** Puts `k` into a newest-first list ahead of the first row that is not newer. */
  function Insert(ids: seq<int>, k: int, created: map<int, int>): (r: seq<int>)
    requires k in created && NewestFirst(ids, created)
    requires k !in ids && Distinct(ids)
    ensures NewestFirst(r, created) && Distinct(r)
    ensures |r| == |ids| + 1
    ensures r[0] == k || (ids != [] && r[0] == ids[0])
    ensures forall x :: x in r <==> x == k || x in ids
  {
    if ids == [] || created[k] >= created[ids[0]] then [k] + ids
    else
      var rest := Insert(ids[1..], k, created);
      assert ids[0] !in ids[1..];
      [ids[0]] + rest
  }

  /** The ids of the table, newest first. */
  method OrderNewestFirst(created: map<int, int>) returns (ids: seq<int>)
    ensures NewestFirst(ids, created) && Enumerates(ids, created)
  {
    ids := [];
    var rest := created.Keys;
    while rest != {}
      invariant rest <= created.Keys
      invariant NewestFirst(ids, created) && Distinct(ids)
      invariant forall x :: x in ids ==> x !in rest
      invariant forall k :: k in created && k !in rest ==> k in ids
      decreases |rest|
    {
      assert (forall x :: x !in rest) ==> rest == {};
      var k :| k in rest;
      ids := Insert(ids, k, created);
      rest := rest - {k};
    }
  }
}
