/** `logical_assignment_hash` of `splits/caching.py`. */
module AssignmentHash {
  import opened Ordering

  datatype AssignmentRow = AssignmentRow(rowId: string, groupId: string, partition: string)

  /** SHA-256 of the canonical JSON of a list of rows. */
  type RowsHasher = seq<AssignmentRow> -> string

  /** The hash separates the lists at hand. */
  ghost predicate CollisionFreeRows(hash: RowsHasher, lists: set<seq<AssignmentRow>>) {
    forall a, b :: a in lists && b in lists && hash(a) == hash(b) ==> a == b
  }

  const rowKey := (r: AssignmentRow) => r.rowId

  function LogicalHash(hash: RowsHasher, rows: seq<AssignmentRow>): string {
    hash(SortBy(rowKey, rows))
  }

  /** Rows with one ID are the same row. */
  ghost predicate SameIdSameRow(rows: seq<AssignmentRow>) {
    forall i, j :: 0 <= i < |rows| && 0 <= j < |rows| && rows[i].rowId == rows[j].rowId ==> rows[i] == rows[j]
  }

  lemma SameIdSameRowIff(rows: seq<AssignmentRow>)
    ensures SameIdSameRow(rows) <==> KeysDetermine(rowKey, rows)
  {
    assert forall k :: 0 <= k < |rows| ==> rowKey(rows[k]) == rows[k].rowId;
  }

  /** The hash ignores the order of the rows exactly when rows with one ID are the same row;
      in particular when the IDs are distinct. */
  lemma LogicalHashIgnoresOrderIff(hash: RowsHasher, lists: set<seq<AssignmentRow>>, rows: seq<AssignmentRow>)
    requires CollisionFreeRows(hash, lists)
    requires forall t: seq<AssignmentRow> :: multiset(t) == multiset(rows) ==> SortBy(rowKey, t) in lists
    ensures (forall t: seq<AssignmentRow> :: multiset(t) == multiset(rows) ==> LogicalHash(hash, t) == LogicalHash(hash, rows))
            <==> SameIdSameRow(rows)
  {
    SameIdSameRowIff(rows);
    SortForgetsOrderIff(rowKey, rows);
    hide SameIdSameRow, SortBy, KeysDetermine;
    if KeysDetermine(rowKey, rows) {
      forall t: seq<AssignmentRow> | multiset(t) == multiset(rows)
        ensures LogicalHash(hash, t) == LogicalHash(hash, rows)
      {
        SortIgnoresOrder(rowKey, rows, t);
      }
    } else {
      var t: seq<AssignmentRow> :| multiset(t) == multiset(rows) && SortBy(rowKey, t) != SortBy(rowKey, rows);
      assert LogicalHash(hash, t) != LogicalHash(hash, rows);
    }
  }

  /** On such rows it identifies the assignment: equal hashes, equal rows, and conversely. */
  lemma LogicalHashIdentifies(hash: RowsHasher, lists: set<seq<AssignmentRow>>, s: seq<AssignmentRow>, t: seq<AssignmentRow>)
    requires CollisionFreeRows(hash, lists) && SortBy(rowKey, s) in lists && SortBy(rowKey, t) in lists && SameIdSameRow(s)
    ensures LogicalHash(hash, s) == LogicalHash(hash, t) <==> multiset(s) == multiset(t)
  {
    SameIdSameRowIff(s);
    if multiset(s) == multiset(t) {
      SortIgnoresOrder(rowKey, s, t);
    }
  }
}
