/**
 The files table and the three SQL functions over it, in the form the database
 runs them: evaluate the recursive part, then update the rows found.
 */
module FileTable {
  import opened Common
  import opened Forest
  import opened Trash

  class Files {
    var rows: Table
    /** The order in which the engine scans the table. */
    var scan: seq<Id>

    ghost predicate Valid()
      reads this
    {
      Acyclic(ParentsOf(rows)) && ScanOf(ParentsOf(rows), scan)
    }

    constructor ()
      ensures Valid() && rows == map[]
    {
      rows := map[];
      scan := [];
      new;
      assert Ranked(ParentsOf(rows), map[]);
    }

    /** INSERT of a row with a new id under an existing parent. */
    method Insert(id: Id, row: Row)
      requires Valid() && id !in rows && (row.parent.Some? ==> row.parent.value in rows)
      modifies this
      ensures Valid() && rows == old(rows)[id := row]
    {
      InsertKeepsAcyclic(ParentsOf(rows), id, row.parent);
      assert ParentsOf(rows[id := row]) == ParentsOf(rows)[id := row.parent];
      rows := rows[id := row];
      scan := scan + [id];
    }

    method SoftDeleteSubtree(root: Id, owner: User, now: Time)
      requires Valid()
      modifies this`rows
      ensures Valid() && rows == SoftDelete(old(rows), root, owner, now)
    {
      AcyclicHasNoCycle(ParentsOf(rows), LiveRows(rows, owner), root);
      var subtree := EvaluateRecursive(ParentsOf(rows), LiveRows(rows, owner), scan, root);
      ghost var batch := Batch(rows, root, owner);
      assert forall x :: x in subtree <==> x in batch by { MembersOf(subtree, multiset(batch)); }
      rows := map x | x in rows :: if x in subtree then rows[x].(deletedAt := Some(now)) else rows[x];
      assert ParentsOf(rows) == ParentsOf(old(rows));
    }

    method RestoreSubtree(root: Id, owner: User)
      requires Valid()
      modifies this`rows
      ensures Valid() && rows == Restore(old(rows), root, owner)
    {
      if root !in rows || rows[root].owner != owner || rows[root].deletedAt.None? {
        assert rows == Restore(rows, root, owner);
        return;
      }
      var stamp := rows[root].deletedAt.value;
      AcyclicHasNoCycle(ParentsOf(rows), StampedRows(rows, owner, stamp), root);
      var subtree := EvaluateRecursive(ParentsOf(rows), StampedRows(rows, owner, stamp), scan, root);
      ghost var cleared := RestoreSet(rows, root, owner);
      assert forall x :: x in subtree <==> x in cleared by { MembersOf(subtree, multiset(cleared)); }
      rows := map x | x in rows :: if x in subtree then rows[x].(deletedAt := None) else rows[x];
      assert ParentsOf(rows) == ParentsOf(old(rows));
    }

    /** Every chunk stored for a row that rows of the owner join to the root, exactly as often as it is stored. */
    method SubtreeStorageKeys(root: Id, owner: User, chunks: seq<Chunk>) returns (out: seq<Chunk>)
      requires Valid()
      ensures out == ChunksOf(chunks, Subtree(ParentsOf(rows), OwnedRows(rows, owner), root))
      ensures forall c :: multiset(out)[c] ==
                if exists path :: OwnChain(rows, owner, path, c.fileId, root) then multiset(chunks)[c] else 0
    {
      AcyclicHasNoCycle(ParentsOf(rows), OwnedRows(rows, owner), root);
      var subtree := EvaluateRecursive(ParentsOf(rows), OwnedRows(rows, owner), scan, root);
      ghost var found := Subtree(ParentsOf(rows), OwnedRows(rows, owner), root);
      JoinIsFilter(chunks, subtree, found);
      out := JoinChunks(chunks, subtree);
      forall c: Chunk
        ensures multiset(out)[c] ==
                if exists path :: OwnChain(rows, owner, path, c.fileId, root) then multiset(chunks)[c] else 0
      {
        ChunksOfCount(chunks, found, c);
        OwnSubtreeByChain(rows, owner, c.fileId, root);
      }
    }
  }
}
