/**
 The trash: soft delete of a subtree, restore of a batch, the trash listing and
 the storage keys of a subtree, as the SQL functions and their callers define them.

 A batch is what one soft delete stamped. Nothing records it except the equal
 deleted_at stamps, so everything said about batches here is a theorem about
 stamps and parent links.
 */
module Trash {
  import opened Common
  import opened Forest

  type User = nat
  type Time = int

  datatype Row = Row(owner: User, parent: Option<Id>, isFolder: bool, uploadComplete: bool, workspace: Option<nat>,
                     workspaceRoot: bool, deletedAt: Option<Time>)
  type Table = map<Id, Row>

  function ParentsOf(t: Table): Parents {
    map x | x in t :: t[x].parent
  }

  // The WHERE clauses of the recursive parts.
  function LiveRows(t: Table, owner: User): set<Id> {
    set x | x in t && t[x].owner == owner && t[x].deletedAt.None?
  }

  function StampedRows(t: Table, owner: User, stamp: Time): set<Id> {
    set x | x in t && t[x].owner == owner && t[x].deletedAt == Some(stamp)
  }

  function OwnedRows(t: Table, owner: User): set<Id> {
    set x | x in t && t[x].owner == owner
  }

  /** UPDATE files SET deleted_at = stamp WHERE id IN ids */
  function SetDeletedAt(t: Table, ids: set<Id>, stamp: Option<Time>): Table {
    map x | x in t :: if x in ids then t[x].(deletedAt := stamp) else t[x]
  }

  /** The live rows of one owner that hang from `root` by live rows of that owner. */
  ghost function Batch(t: Table, root: Id, owner: User): set<Id> {
    Subtree(ParentsOf(t), LiveRows(t, owner), root)
  }

  ghost function SoftDelete(t: Table, root: Id, owner: User, now: Time): Table {
    SetDeletedAt(t, Batch(t, root, owner), Some(now))
  }

  /** The rows a restore of `root` clears: those joined to it by rows with the root's own stamp. */
  ghost function RestoreSet(t: Table, root: Id, owner: User): set<Id> {
    if root !in t || t[root].owner != owner || t[root].deletedAt.None? then {}
    else Subtree(ParentsOf(t), StampedRows(t, owner, t[root].deletedAt.value), root)
  }

  ghost function Restore(t: Table, root: Id, owner: User): Table {
    SetDeletedAt(t, RestoreSet(t, root, owner), None)
  }

  ghost predicate Unused(t: Table, stamp: Time) {
    forall x :: x in t ==> t[x].deletedAt != Some(stamp)
  }

  // -------------------------------------------------------------------
  // The same, row by row
  // -------------------------------------------------------------------

  predicate OwnChain(t: Table, owner: User, path: seq<Id>, x: Id, top: Id) {
    Chain(ParentsOf(t), path, x, top) && forall i :: 0 <= i < |path| ==> t[path[i]].owner == owner
  }

  /** A chain of rows of the owner with this stamp, None standing for live rows. */
  predicate StampedChain(t: Table, owner: User, stamp: Option<Time>, path: seq<Id>, x: Id, top: Id) {
    OwnChain(t, owner, path, x, top) && forall i :: 0 <= i < |path| ==> t[path[i]].deletedAt == stamp
  }

  ghost predicate Hangs(t: Table, owner: User, stamp: Option<Time>, x: Id, top: Id) {
    exists path :: StampedChain(t, owner, stamp, path, x, top)
  }

  lemma SubtreeByChain(t: Table, owner: User, stamp: Option<Time>, x: Id, top: Id)
    ensures var ok := if stamp.None? then LiveRows(t, owner) else StampedRows(t, owner, stamp.value);
            x in Subtree(ParentsOf(t), ok, top) <==> Hangs(t, owner, stamp, x, top)
  {
    var par, ok := ParentsOf(t), if stamp.None? then LiveRows(t, owner) else StampedRows(t, owner, stamp.value);
    if x in Subtree(par, ok, top) {
      var n: nat :| Climbs(par, ok, x, top, n);
      var path := ClimbIsChain(par, ok, x, top, n);
      assert StampedChain(t, owner, stamp, path, x, top);
    }
    if path :| StampedChain(t, owner, stamp, path, x, top) {
      ChainIsClimb(par, ok, x, top, path);
      assert path[0] in par;
    }
  }

  lemma OwnSubtreeByChain(t: Table, owner: User, x: Id, top: Id)
    ensures x in Subtree(ParentsOf(t), OwnedRows(t, owner), top) <==> exists path :: OwnChain(t, owner, path, x, top)
  {
    var par, ok := ParentsOf(t), OwnedRows(t, owner);
    if x in Subtree(par, ok, top) {
      var n: nat :| Climbs(par, ok, x, top, n);
      var path := ClimbIsChain(par, ok, x, top, n);
      assert OwnChain(t, owner, path, x, top);
    }
    if path :| OwnChain(t, owner, path, x, top) {
      ChainIsClimb(par, ok, x, top, path);
      assert path[0] in par;
    }
  }

  /** A soft delete stamps a row if and only if live rows of the owner join it to the root, and changes nothing else. */
  lemma SoftDeleteByChain(t: Table, root: Id, owner: User, now: Time, x: Id)
    requires x in t
    ensures SoftDelete(t, root, owner, now).Keys == t.Keys
    ensures SoftDelete(t, root, owner, now)[x] ==
            t[x].(deletedAt := if Hangs(t, owner, None, x, root) then Some(now) else t[x].deletedAt)
  {
    SubtreeByChain(t, owner, None, x, root);
  }

  /** A restore clears a row if and only if the owner's rows with the root's stamp join it to the root. */
  lemma RestoreByChain(t: Table, root: Id, owner: User, x: Id)
    requires x in t
    ensures Restore(t, root, owner).Keys == t.Keys
    ensures Restore(t, root, owner)[x] ==
            if root in t && t[root].deletedAt.Some? && Hangs(t, owner, t[root].deletedAt, x, root)
            then t[x].(deletedAt := None) else t[x]
  {
    if root in t && t[root].deletedAt.Some? {
      SubtreeByChain(t, owner, t[root].deletedAt, x, root);
      if path :| StampedChain(t, owner, t[root].deletedAt, path, x, root) {
        assert t[path[|path| - 1]].owner == owner;
      }
    }
  }

  // -------------------------------------------------------------------
  // Restore undoes soft delete
  // -------------------------------------------------------------------

  /** Some row of the owner already carries the stamp and hangs directly below the batch. */
  ghost predicate StampClash(t: Table, root: Id, owner: User, now: Time) {
    exists x :: x in StampedRows(t, owner, now) && t[x].parent.Some? && t[x].parent.value in Batch(t, root, owner)
  }

  /** One delete followed by one restore is the identity exactly when the stamp does not clash. */
  lemma RestoreUndoesSoftDelete(t: Table, root: Id, owner: User, now: Time)
    requires root in LiveRows(t, owner)
    ensures Restore(SoftDelete(t, root, owner, now), root, owner) == t <==> !StampClash(t, root, owner, now)
  {
    var par, batch, t' := ParentsOf(t), Batch(t, root, owner), SoftDelete(t, root, owner, now);
    ReachesStep(par, LiveRows(t, owner), root, root);
    assert ParentsOf(t') == par;
    var ok' := StampedRows(t', owner, now);
    var cleared := RestoreSet(t', root, owner);
    assert cleared == Subtree(par, ok', root);
    forall x | x in batch
      ensures x in cleared
    {
      var n: nat :| Climbs(par, LiveRows(t, owner), x, root, n);
      ClimbsInsideSubtree(par, LiveRows(t, owner), x, root, n);
      ClimbsMonotone(par, batch, ok', x, root, n);
    }
    if StampClash(t, root, owner, now) {
      var x :| x in StampedRows(t, owner, now) && t[x].parent.Some? && t[x].parent.value in batch;
      ReachesStep(par, ok', x, root);
      assert Restore(t', root, owner)[x].deletedAt != t[x].deletedAt;
    } else {
      forall x | x in cleared
        ensures x in batch
      {
        var n: nat :| Climbs(par, ok', x, root, n);
        SubtreeWithin(par, ok', root, batch, x, n);
      }
      assert cleared == batch;
    }
  }

  // -------------------------------------------------------------------
  // Any number of deletes, undone in any order
  // -------------------------------------------------------------------

  datatype Deletion = Deletion(root: Id, owner: User, stamp: Time)

  ghost function TrashAll(t: Table, ds: seq<Deletion>): Table
    decreases |ds|
  {
    if ds == [] then t else TrashAll(SoftDelete(t, ds[0].root, ds[0].owner, ds[0].stamp), ds[1..])
  }

  ghost function RestoreAll(t: Table, ds: seq<Deletion>): Table
    decreases |ds|
  {
    if ds == [] then t else RestoreAll(Restore(t, ds[0].root, ds[0].owner), ds[1..])
  }

  /** Each root is live when it is deleted, and each stamp is new when it is used. */
  ghost predicate CleanDeletions(t: Table, ds: seq<Deletion>)
    decreases |ds|
  {
    ds == [] ||
    (&& ds[0].root in LiveRows(t, ds[0].owner)
     && Unused(t, ds[0].stamp)
     && CleanDeletions(SoftDelete(t, ds[0].root, ds[0].owner, ds[0].stamp), ds[1..]))
  }

  /** What is in the trash on top of the original table, keyed by stamp. */
  datatype Pending = Pending(root: Id, owner: User, ids: set<Id>)
  type Ledger = map<Time, Pending>

  predicate InLedger(led: Ledger, x: Id, stamp: Option<Time>) {
    stamp.Some? && stamp.value in led && x in led[stamp.value].ids
  }

  /** Row `x` is as it was, or stamped by a batch that contains it. */
  predicate RowAccounted(t: Table, cur: Table, led: Ledger, x: Id)
    requires x in t && x in cur
  {
    && cur[x] == t[x].(deletedAt := cur[x].deletedAt)
    && (cur[x].deletedAt == t[x].deletedAt || InLedger(led, x, cur[x].deletedAt))
  }

  /** The rows of the batch were live, and now carry a stamp that no other row had. */
  ghost predicate BatchInPlace(t: Table, cur: Table, s: Time, p: Pending)
    requires t.Keys == cur.Keys
  {
    && Unused(t, s)
    && p.root in p.ids
    && p.ids <= t.Keys
    && (forall x :: x in p.ids ==> t[x].owner == p.owner && t[x].deletedAt.None? && cur[x].deletedAt == Some(s))
    && Subtree(ParentsOf(t), p.ids, p.root) == p.ids
  }

  /** `cur` is the original table `t` with exactly the batches of `led` stamped over it. */
  ghost predicate Covers(t: Table, cur: Table, led: Ledger) {
    && cur.Keys == t.Keys
    && (forall x :: x in t ==> RowAccounted(t, cur, led, x))
    && (forall s :: s in led ==> BatchInPlace(t, cur, s, led[s]))
  }

  lemma CoveredParents(t: Table, cur: Table, led: Ledger)
    requires Covers(t, cur, led)
    ensures ParentsOf(cur) == ParentsOf(t)
  {
    forall x | x in t
      ensures cur[x].parent == t[x].parent
    {
      assert RowAccounted(t, cur, led, x);
    }
  }

  lemma NewStampIsUnused(t: Table, cur: Table, led: Ledger, s: Time)
    requires Covers(t, cur, led) && Unused(cur, s)
    ensures s !in led && Unused(t, s)
  {
    forall q | q in led
      ensures q != s
    {
      assert BatchInPlace(t, cur, q, led[q]);
      assert cur[led[q].root].deletedAt == Some(q);
    }
    forall x | x in t
      ensures t[x].deletedAt != Some(s)
    {
      assert RowAccounted(t, cur, led, x);
      if InLedger(led, x, cur[x].deletedAt) {
        assert BatchInPlace(t, cur, cur[x].deletedAt.value, led[cur[x].deletedAt.value]);
      }
    }
  }

  lemma DeleteExtendsLedger(t: Table, cur: Table, led: Ledger, d: Deletion)
    requires Covers(t, cur, led)
    requires d.root in LiveRows(cur, d.owner) && Unused(cur, d.stamp)
    ensures d.stamp !in led
    ensures Covers(t, SoftDelete(cur, d.root, d.owner, d.stamp),
                   led[d.stamp := Pending(d.root, d.owner, Batch(cur, d.root, d.owner))])
  {
    NewStampIsUnused(t, cur, led, d.stamp);
    var ids := Batch(cur, d.root, d.owner);
    var cur' := SoftDelete(cur, d.root, d.owner, d.stamp);
    var led' := led[d.stamp := Pending(d.root, d.owner, ids)];
    forall x | x in t
      ensures RowAccounted(t, cur', led', x)
    {
      assert RowAccounted(t, cur, led, x);
    }
    forall s | s in led
      ensures BatchInPlace(t, cur', s, led[s])
    {
      assert BatchInPlace(t, cur, s, led[s]);
      assert ids !! led[s].ids;
    }
    CoveredParents(t, cur, led);
    ReachesStep(ParentsOf(cur), LiveRows(cur, d.owner), d.root, d.root);
    SubtreeOfSubtree(ParentsOf(cur), LiveRows(cur, d.owner), d.root);
    forall x | x in ids
      ensures t[x].owner == d.owner && t[x].deletedAt.None?
    {
      assert RowAccounted(t, cur, led, x);
    }
    assert BatchInPlace(t, cur', d.stamp, led'[d.stamp]);
  }

  lemma RestoreShrinksLedger(t: Table, cur: Table, led: Ledger, s: Time)
    requires Covers(t, cur, led) && s in led
    ensures RestoreSet(cur, led[s].root, led[s].owner) == led[s].ids
    ensures Covers(t, Restore(cur, led[s].root, led[s].owner), led - {s})
  {
    var p := led[s];
    assert BatchInPlace(t, cur, s, p);
    CoveredParents(t, cur, led);
    forall x | x in t
      ensures x in StampedRows(cur, p.owner, s) <==> x in p.ids
    {
      assert RowAccounted(t, cur, led, x);
    }
    assert StampedRows(cur, p.owner, s) == p.ids;
    assert RowAccounted(t, cur, led, p.root);
    var cur', led' := Restore(cur, p.root, p.owner), led - {s};
    forall x | x in t
      ensures RowAccounted(t, cur', led', x)
    {
      assert RowAccounted(t, cur, led, x);
    }
    forall q | q in led'
      ensures BatchInPlace(t, cur', q, led[q])
    {
      assert BatchInPlace(t, cur, q, led[q]);
      assert p.ids !! led[q].ids;
    }
  }

  predicate Entered(led: Ledger, d: Deletion) {
    d.stamp in led && led[d.stamp].root == d.root && led[d.stamp].owner == d.owner
  }

  ghost predicate StampIn(ds: seq<Deletion>, s: Time) {
    exists d :: d in ds && d.stamp == s
  }

  lemma EntriesCombine(led: Ledger, led': Ledger, ds: seq<Deletion>, entry: Pending)
    requires ds != [] && entry.root == ds[0].root && entry.owner == ds[0].owner
    requires ds[0].stamp !in led
    requires forall s :: s in led[ds[0].stamp := entry] ==> s in led' && led'[s] == led[ds[0].stamp := entry][s]
    requires forall s :: s in led' ==> s in led[ds[0].stamp := entry] || StampIn(ds[1..], s)
    requires forall d :: d in ds[1..] ==> Entered(led', d)
    ensures forall s :: s in led ==> s in led' && led'[s] == led[s]
    ensures forall s :: s in led' ==> s in led || StampIn(ds, s)
    ensures forall d :: d in ds ==> Entered(led', d)
  {
    assert led'[ds[0].stamp] == entry;
    forall s | s in led'
      ensures s in led || StampIn(ds, s)
    {
      if s == ds[0].stamp {
        assert ds[0] in ds;
      } else if s !in led {
        var e :| e in ds[1..] && e.stamp == s;
        assert e in ds;
      }
    }
  }

  lemma {:induction false} TrashAllFillsLedger(t: Table, cur: Table, led: Ledger, ds: seq<Deletion>)
    returns (led': Ledger)
    requires Covers(t, cur, led) && CleanDeletions(cur, ds)
    ensures Covers(t, TrashAll(cur, ds), led')
    ensures forall s :: s in led ==> s in led' && led'[s] == led[s]
    ensures forall s :: s in led' ==> s in led || StampIn(ds, s)
    ensures forall d :: d in ds ==> Entered(led', d)
    decreases |ds|
  {
    if ds == [] {
      led' := led;
    } else {
      var d := ds[0];
      var entry := Pending(d.root, d.owner, Batch(cur, d.root, d.owner));
      DeleteExtendsLedger(t, cur, led, d);
      led' := TrashAllFillsLedger(t, SoftDelete(cur, d.root, d.owner, d.stamp), led[d.stamp := entry], ds[1..]);
      EntriesCombine(led, led', ds, entry);
    }
  }

  ghost predicate ToBeRestored(led: Ledger, rs: seq<Deletion>, s: Time) {
    exists d :: d in rs && d.stamp == s && Entered(led, d)
  }

  /** What is in the ledger is still on the list, and what is on the list is in the ledger or already back. */
  ghost predicate Outstanding(cur: Table, led: Ledger, rs: seq<Deletion>) {
    && (forall s :: s in led ==> ToBeRestored(led, rs, s))
    && (forall d :: d in rs ==> Entered(led, d) || (d.root in cur && cur[d.root].deletedAt.None?))
  }

  lemma RestoreSettlesOne(t: Table, cur: Table, led: Ledger, rs: seq<Deletion>) returns (led': Ledger)
    requires rs != [] && Covers(t, cur, led) && Outstanding(cur, led, rs)
    ensures Covers(t, Restore(cur, rs[0].root, rs[0].owner), led')
    ensures Outstanding(Restore(cur, rs[0].root, rs[0].owner), led', rs[1..])
  {
    var d := rs[0];
    var cur' := Restore(cur, d.root, d.owner);
    if Entered(led, d) {
      RestoreShrinksLedger(t, cur, led, d.stamp);
      led' := led - {d.stamp};
      assert BatchInPlace(t, cur, d.stamp, led[d.stamp]);
      assert cur'[d.root].deletedAt.None?;
      forall e | e in rs[1..]
        ensures Entered(led', e) || (e.root in cur' && cur'[e.root].deletedAt.None?)
      {
        assert e in rs;
        if Entered(led, e) && e.stamp == d.stamp {
          assert e.root == d.root;
        }
      }
    } else {
      assert cur' == cur;
      led' := led;
    }
    forall s | s in led'
      ensures ToBeRestored(led', rs[1..], s)
    {
      assert ToBeRestored(led, rs, s);
      var e :| e in rs && e.stamp == s && Entered(led, e);
      assert e != d && e in rs[1..] && Entered(led', e);
    }
  }

  lemma {:induction false} RestoreAllEmptiesLedger(t: Table, cur: Table, led: Ledger, rs: seq<Deletion>)
    requires Covers(t, cur, led) && Outstanding(cur, led, rs)
    ensures RestoreAll(cur, rs) == t
    decreases |rs|
  {
    if rs == [] {
      forall s
        ensures s !in led
      {
        assert s in led ==> ToBeRestored(led, rs, s);
      }
      forall x | x in t
        ensures cur[x] == t[x]
      {
        assert RowAccounted(t, cur, led, x);
      }
    } else {
      var led' := RestoreSettlesOne(t, cur, led, rs);
      RestoreAllEmptiesLedger(t, Restore(cur, rs[0].root, rs[0].owner), led', rs[1..]);
    }
  }

  /**
   Trash then restore is the identity, whatever the order of the restores
   (and even if some restores are repeated).
   */
  lemma TrashThenRestoreInAnyOrder(t: Table, ds: seq<Deletion>, rs: seq<Deletion>)
    requires CleanDeletions(t, ds)
    requires forall d :: d in rs <==> d in ds
    ensures RestoreAll(TrashAll(t, ds), rs) == t
  {
    var led := TrashAllFillsLedger(t, t, map[], ds);
    forall s | s in led
      ensures ToBeRestored(led, rs, s)
    {
      var d :| d in ds && d.stamp == s;
      assert d in rs;
    }
    RestoreAllEmptiesLedger(t, TrashAll(t, ds), led, rs);
  }

  /** One restore clears the rows of its own delete and no other, nested deletes included. */
  lemma RestoreClearsItsOwnBatch(t: Table, ds: seq<Deletion>, d: Deletion, x: Id)
    requires CleanDeletions(t, ds) && d in ds && x in t
    ensures var cur := TrashAll(t, ds);
            && cur.Keys == t.Keys
            && Restore(cur, d.root, d.owner)[x].deletedAt ==
               if cur[x].deletedAt == Some(d.stamp) then None else cur[x].deletedAt
  {
    var led := TrashAllFillsLedger(t, t, map[], ds);
    var cur := TrashAll(t, ds);
    assert Entered(led, d);
    RestoreShrinksLedger(t, cur, led, d.stamp);
    assert RowAccounted(t, cur, led, x) && BatchInPlace(t, cur, d.stamp, led[d.stamp]);
  }

  // -------------------------------------------------------------------
  // Downward closure
  // -------------------------------------------------------------------

  /** No live row lies directly (hence at any depth) below a trashed row of its owner. */
  ghost predicate TrashedAbove(t: Table, x: Id) {
    && x in t && t[x].parent.Some? && t[x].parent.value in t
    && t[t[x].parent.value].owner == t[x].owner
    && t[t[x].parent.value].deletedAt.Some?
  }

  ghost predicate DownClosed(t: Table) {
    forall x :: TrashedAbove(t, x) ==> t[x].deletedAt.Some?
  }

  lemma SoftDeleteKeepsDownClosed(t: Table, root: Id, owner: User, now: Time)
    requires DownClosed(t)
    ensures DownClosed(SoftDelete(t, root, owner, now))
  {
    var t' := SoftDelete(t, root, owner, now);
    forall x | TrashedAbove(t', x)
      ensures t'[x].deletedAt.Some?
    {
      ReachesStep(ParentsOf(t), LiveRows(t, owner), x, root);
      if t[x].deletedAt.None? {
        assert !TrashedAbove(t, x);
      }
    }
  }

  /** A restore keeps the closure exactly when the restored row's own parent is not in the owner's trash. */
  lemma RestoreKeepsDownClosed(t: Table, root: Id, owner: User)
    requires DownClosed(t) && Acyclic(ParentsOf(t))
    requires root in t && t[root].owner == owner && t[root].deletedAt.Some?
    ensures DownClosed(Restore(t, root, owner)) <==> !TrashedAbove(t, root)
  {
    var par, ok := ParentsOf(t), StampedRows(t, owner, t[root].deletedAt.value);
    var t' := Restore(t, root, owner);
    ReachesStep(par, ok, root, root);
    if TrashedAbove(t, root) {
      var p := t[root].parent.value;
      if p in RestoreSet(t, root, owner) {
        var n: nat :| Climbs(par, ok, p, root, n);
        assert Climbs(par, ok, root, root, n + 1);
        AcyclicHasNoCycle(par, ok, root);
      }
      assert TrashedAbove(t', root);
    } else {
      forall x | TrashedAbove(t', x)
        ensures t'[x].deletedAt.Some?
      {
        assert x == root || TrashedAbove(t, x);
        ReachesStep(par, ok, x, root);
      }
    }
  }

  // -------------------------------------------------------------------
  // Whole runs
  // -------------------------------------------------------------------

  /** `direct` says whether the caller has a grant on the parent; folders are complete at once, uploads are not. */
  datatype Event =
    | Create(id: Id, owner: User, parent: Option<Id>, isFolder: bool, direct: bool)
    | Finalize(id: Id, user: User)
    | MakeRoot(id: Id, user: User, workspace: nat)
    | Move(id: Id, dest: Option<Id>)
    | Delete(root: Id, user: User, now: Time)
    | Undelete(root: Id, user: User)

  /** The folder route refuses a parent that is a file only if the caller's own lookup of it succeeds. */
  predicate CreateAllowed(t: Table, e: Event)
    requires e.Create?
  {
    && e.id !in t
    && (e.parent.Some? ==>
          && e.parent.value in t
          && var p := t[e.parent.value];
          !(e.isFolder && e.direct && p.uploadComplete && p.deletedAt.None? && !p.isFolder))
  }

  /** The checks of the move route: live row, live folder as destination, cycle check for folders. */
  predicate MoveAllowed(t: Table, id: Id, dest: Option<Id>) {
    && id in t && t[id].deletedAt.None?
    && (dest.Some? ==>
          && dest.value in t && t[dest.value].isFolder && t[dest.value].deletedAt.None?
          && (t[id].isFolder ==> IsDescendantOf(ParentsOf(t), id, dest.value) == No))
  }

  function WorkspaceOf(t: Table, parent: Option<Id>): Option<nat> {
    if parent.Some? && parent.value in t then t[parent.value].workspace else None
  }

  function Moved(t: Table, id: Id, dest: Option<Id>): Table
    requires id in t
  {
    t[id := t[id].(parent := dest, workspace := WorkspaceOf(t, dest))]
  }
  function NewRow(t: Table, owner: User, parent: Option<Id>, isFolder: bool): Row {
    Row(owner, parent, isFolder, isFolder, WorkspaceOf(t, parent), false, None)
  }

  ghost function Step(t: Table, e: Event): Table {
    match e
    case Create(id, owner, parent, isFolder, _) =>
      if CreateAllowed(t, e) then t[id := NewRow(t, owner, parent, isFolder)] else t
    case Finalize(id, user) =>
      if id in t && t[id].owner == user then t[id := t[id].(uploadComplete := true)] else t
    case MakeRoot(id, user, workspace) =>
      if id in t && t[id].owner == user && t[id].isFolder
      then t[id := t[id].(workspaceRoot := true, workspace := Some(workspace))] else t
    case Move(id, dest) => if MoveAllowed(t, id, dest) then Moved(t, id, dest) else t
    case Delete(root, user, now) =>
      if root in t && t[root].workspaceRoot then t else SoftDelete(t, root, user, now)
    case Undelete(root, user) => Restore(t, root, user)
  }

  /** A new row is its maker's, live, no workspace's root, in its parent's workspace, and complete only if a folder. */
  lemma CreatedRow(t: Table, e: Event)
    requires e.Create? && CreateAllowed(t, e)
    ensures var t' := Step(t, e);
            && t'.Keys == t.Keys + {e.id}
            && var row := t'[e.id];
            && row.owner == e.owner && row.parent == e.parent && row.isFolder == e.isFolder
            && row.uploadComplete == e.isFolder && row.deletedAt.None? && !row.workspaceRoot
            && (e.parent.Some? ==> row.workspace == t[e.parent.value].workspace)
            && (e.parent.None? ==> row.workspace.None?)
  {
  }

  /**
   What a request changes of an existing row: its owner's finalize completes it, its
   owner's making a folder a workspace's root marks it, a move gives it the place and the
   workspace of its destination, and only delete and restore touch its stamp.
   */
  lemma StepWritesExactly(t: Table, e: Event, x: Id)
    requires x in t
    ensures var t' := Step(t, e);
            && x in t'
            && t'[x].owner == t[x].owner && t'[x].isFolder == t[x].isFolder
            && (t'[x].uploadComplete <==>
                  t[x].uploadComplete || (e.Finalize? && e.id == x && t[x].owner == e.user))
            && (var marked := e.MakeRoot? && e.id == x && t[x].owner == e.user && t[x].isFolder;
                var moved := e.Move? && e.id == x && MoveAllowed(t, x, e.dest);
                && (t'[x].workspaceRoot <==> t[x].workspaceRoot || marked)
                && t'[x].parent == (if moved then e.dest else t[x].parent)
                && t'[x].workspace == if marked then Some(e.workspace)
                                      else if moved then if e.dest.Some? then t[e.dest.value].workspace else None
                                      else t[x].workspace)
            && (!e.Delete? && !e.Undelete? ==> t'[x].deletedAt == t[x].deletedAt)
            && (e.Delete? && e.root in t && t[e.root].workspaceRoot ==> t' == t)
  {
  }

  ghost function Run(t: Table, es: seq<Event>): Table
    decreases |es|
  {
    if es == [] then t else Run(Step(t, es[0]), es[1..])
  }

  /** The create routes do not always check that the parent is a folder. */
  predicate HangsUnderFile(t: Table, e: Event) {
    e.Create? && CreateAllowed(t, e) && e.parent.Some? && !t[e.parent.value].isFolder
  }

  /** A delete stamps with a time no row carries at that moment. */
  ghost predicate StampsAfresh(t: Table, e: Event) {
    e.Delete? ==> Unused(t, e.now)
  }

  ghost predicate Orderly(t: Table, es: seq<Event>)
    decreases |es|
  {
    es == [] ||
    (&& StampsAfresh(t, es[0])
     && !HangsUnderFile(t, es[0])
     && Orderly(Step(t, es[0]), es[1..]))
  }

  ghost predicate OnlyFoldersHaveChildren(t: Table) {
    forall x :: x in t && t[x].parent.Some? ==> t[x].parent.value in t && t[t[x].parent.value].isFolder
  }

  /** `x` hangs below a row of the same owner in the same batch. */
  ghost predicate AttachedInBatch(t: Table, stamp: Time, x: Id) {
    && x in t && t[x].parent.Some? && t[x].parent.value in t
    && t[t[x].parent.value].deletedAt == Some(stamp)
    && t[t[x].parent.value].owner == t[x].owner
  }

  ghost predicate TopOf(t: Table, stamp: Time, top: Id) {
    forall x :: x in t && t[x].deletedAt == Some(stamp) && x != top ==> AttachedInBatch(t, stamp, x)
  }

  /** All rows stamped alike, except one, have a parent in the batch. */
  ghost predicate Connected(t: Table, stamp: Time) {
    exists top :: TopOf(t, stamp, top)
  }

  ghost predicate TableInvariant(t: Table) {
    && Acyclic(ParentsOf(t))
    && OnlyFoldersHaveChildren(t)
    && forall s :: Connected(t, s)
  }

  lemma MoveKeepsForest(t: Table, id: Id, dest: Option<Id>)
    requires Acyclic(ParentsOf(t)) && OnlyFoldersHaveChildren(t) && MoveAllowed(t, id, dest)
    ensures Acyclic(ParentsOf(Moved(t, id, dest)))
  {
    var par := ParentsOf(t);
    assert ParentsOf(Moved(t, id, dest)) == par[id := dest];
    if dest.Some? && dest.value in Subtree(par, par.Keys, id) {
      if t[id].isFolder {
        IsDescendantOfExact(par, id, dest.value);
      } else {
        var n: nat :| Climbs(par, par.Keys, dest.value, id, n);
        if n > 0 {
          var child := Along(par, par.Keys, dest.value, id, n, 1);
        }
      }
    }
    MoveKeepsAcyclic(par, id, dest);
  }

  lemma DeleteKeepsConnected(t: Table, root: Id, owner: User, now: Time, s: Time)
    requires Unused(t, now) && Connected(t, s)
    ensures Connected(SoftDelete(t, root, owner, now), s)
  {
    var t' := SoftDelete(t, root, owner, now);
    var par, ok := ParentsOf(t), LiveRows(t, owner);
    if s == now {
      forall x | x in t' && t'[x].deletedAt == Some(now) && x != root
        ensures AttachedInBatch(t', now, x)
      {
        ReachesStep(par, ok, x, root);
      }
      assert TopOf(t', s, root);
    } else {
      var top :| TopOf(t, s, top);
      forall x | x in t' && t'[x].deletedAt == Some(s) && x != top
        ensures AttachedInBatch(t', s, x)
      {
        assert AttachedInBatch(t, s, x);
        var p := t[x].parent.value;
        assert p !in Batch(t, root, owner) by {
          if p in Batch(t, root, owner) { ReachesStep(par, ok, p, root); }
        }
      }
      assert TopOf(t', s, top);
    }
  }

  lemma RestoreKeepsConnected(t: Table, root: Id, owner: User, s: Time)
    requires Connected(t, s)
    ensures Connected(Restore(t, root, owner), s)
  {
    var t', cleared := Restore(t, root, owner), RestoreSet(t, root, owner);
    var top :| TopOf(t, s, top);
    forall x | x in t' && t'[x].deletedAt == Some(s) && x != top
      ensures AttachedInBatch(t', s, x)
    {
      assert AttachedInBatch(t, s, x);
      if t[x].parent.value in cleared {
        var ok := StampedRows(t, owner, t[root].deletedAt.value);
        ReachesStep(ParentsOf(t), ok, t[x].parent.value, root);
        ReachesStep(ParentsOf(t), ok, x, root);
      }
    }
    assert TopOf(t', s, top);
  }

  lemma UntouchedTrashStaysConnected(t: Table, t': Table, s: Time)
    requires Connected(t, s)
    requires forall x :: x in t ==>
               x in t' && t'[x].owner == t[x].owner && t'[x].deletedAt == t[x].deletedAt
    requires forall x :: x in t' && t'[x].deletedAt.Some? ==> x in t && t'[x].parent == t[x].parent
    ensures Connected(t', s)
  {
    var top :| TopOf(t, s, top);
    forall x | x in t' && t'[x].deletedAt == Some(s) && x != top
      ensures AttachedInBatch(t', s, x)
    {
      assert AttachedInBatch(t, s, x);
    }
    assert TopOf(t', s, top);
  }

  lemma CreateKeepsInvariant(t: Table, id: Id, row: Row)
    requires TableInvariant(t) && id !in t && row.deletedAt.None?
    requires row.parent.Some? ==> row.parent.value in t && t[row.parent.value].isFolder
    ensures TableInvariant(t[id := row])
  {
    var t' := t[id := row];
    assert ParentsOf(t') == ParentsOf(t)[id := row.parent];
    InsertKeepsAcyclic(ParentsOf(t), id, row.parent);
    forall s
      ensures Connected(t', s)
    {
      UntouchedTrashStaysConnected(t, t', s);
    }
  }

  lemma MoveKeepsInvariant(t: Table, id: Id, dest: Option<Id>)
    requires TableInvariant(t) && MoveAllowed(t, id, dest)
    ensures TableInvariant(Moved(t, id, dest))
  {
    var t' := Moved(t, id, dest);
    MoveKeepsForest(t, id, dest);
    forall s
      ensures Connected(t', s)
    {
      UntouchedTrashStaysConnected(t, t', s);
    }
  }

  lemma MarkKeepsInvariant(t: Table, id: Id, row: Row)
    requires TableInvariant(t) && id in t
    requires row == t[id].(uploadComplete := row.uploadComplete, workspaceRoot := row.workspaceRoot,
                           workspace := row.workspace)
    ensures TableInvariant(t[id := row])
  {
    var t' := t[id := row];
    assert ParentsOf(t') == ParentsOf(t);
    forall s
      ensures Connected(t', s)
    {
      UntouchedTrashStaysConnected(t, t', s);
    }
  }

  /**
   A row is hung below a file by any upload into it, and by a new folder whose maker has
   no grant on the file itself, or while the file is unfinished or in the trash.
   */
  lemma HangsUnderFileExactly(t: Table, e: Event)
    requires e.Create?
    ensures HangsUnderFile(t, e) <==>
            && e.id !in t && e.parent.Some? && e.parent.value in t && !t[e.parent.value].isFolder
            && (!e.isFolder || !e.direct || !t[e.parent.value].uploadComplete || t[e.parent.value].deletedAt.Some?)
    ensures CreateAllowed(t, e) && !HangsUnderFile(t, e) <==>
            e.id !in t && (e.parent.Some? ==> e.parent.value in t && t[e.parent.value].isFolder)
  {
  }

  /** One step keeps all three invariants, unless it creates a row below a file, and then it never does. */
  lemma StepKeepsInvariant(t: Table, e: Event)
    requires TableInvariant(t) && StampsAfresh(t, e)
    ensures TableInvariant(Step(t, e)) <==> !HangsUnderFile(t, e)
  {
    var t' := Step(t, e);
    match e
    case Create(id, owner, parent, isFolder, _) =>
      if HangsUnderFile(t, e) {
        assert id in t' && !t'[t'[id].parent.value].isFolder;
      } else if CreateAllowed(t, e) {
        CreateKeepsInvariant(t, id, t'[id]);
      }
    case Finalize(id, user) =>
      if id in t { MarkKeepsInvariant(t, id, t'[id]); }
    case MakeRoot(id, user, workspace) =>
      if id in t { MarkKeepsInvariant(t, id, t'[id]); }
    case Move(id, dest) =>
      if MoveAllowed(t, id, dest) {
        MoveKeepsInvariant(t, id, dest);
      }
    case Delete(root, user, now) =>
      assert ParentsOf(t') == ParentsOf(t);
      forall s
        ensures Connected(t', s)
      {
        if !(root in t && t[root].workspaceRoot) {
          DeleteKeepsConnected(t, root, user, now, s);
        }
      }
    case Undelete(root, user) =>
      assert ParentsOf(t') == ParentsOf(t);
      forall s
        ensures Connected(t', s)
      {
        RestoreKeepsConnected(t, root, user, s);
      }
  }

  /** Over every run: a forest stays a forest and every batch stays in one piece. */
  lemma {:induction false} RunKeepsInvariant(t: Table, es: seq<Event>)
    requires TableInvariant(t) && Orderly(t, es)
    ensures TableInvariant(Run(t, es))
    decreases |es|
  {
    if es != [] {
      StepKeepsInvariant(t, es[0]);
      RunKeepsInvariant(Step(t, es[0]), es[1..]);
    }
  }

  /**
   Why a file must not get children: files are moved without a cycle check. The owner of
   an unfinished upload creates a folder below it and moves it in; both are accepted.
   */
  lemma FileWithFolderInsideCanLoop(owner: User)
    ensures var t := map[0 := Row(owner, None, false, false, None, false, None)];
            var es := [Create(1, owner, Some(0), true, true), Move(0, Some(1))];
            && TableInvariant(t) && CreateAllowed(t, es[0]) && MoveAllowed(Step(t, es[0]), 0, Some(1))
            && !Acyclic(ParentsOf(Run(t, es)))
  {
    var t := map[0 := Row(owner, None, false, false, None, false, None)];
    var t1 := t[1 := Row(owner, Some(0), true, true, None, false, None)];
    var t2 := t1[0 := Row(owner, Some(1), false, false, None, false, None)];
    assert Ranked(ParentsOf(t), map[0 := 0]);
    forall s
      ensures Connected(t, s)
    {
      assert TopOf(t, s, 0);
    }
    assert Step(t, Create(1, owner, Some(0), true, true)) == t1;
    assert Step(t1, Move(0, Some(1))) == t2;
    LastEvent(t1, Move(0, Some(1)));
    assert [Create(1, owner, Some(0), true, true), Move(0, Some(1))][1..] == [Move(0, Some(1))];
    assert Climbs(ParentsOf(t2), ParentsOf(t2).Keys, 0, 0, 2);
    assert OnCycle(ParentsOf(t2), ParentsOf(t2).Keys, 0);
    if Acyclic(ParentsOf(t2)) {
      AcyclicHasNoCycle(ParentsOf(t2), ParentsOf(t2).Keys, 0);
    }
  }

  lemma LastEvent(t: Table, e: Event)
    ensures Run(t, [e]) == Step(t, e)
  {
    assert [e][1..] == [];
    assert Run(Step(t, e), []) == Step(t, e);
  }

  /** In one piece means: restoring the top row brings back the whole batch. */
  lemma RestoringTheTopRestoresTheBatch(t: Table, stamp: Time, top: Id)
    requires Acyclic(ParentsOf(t)) && TopOf(t, stamp, top)
    requires exists x :: x in t && t[x].deletedAt == Some(stamp)
    ensures top in t && t[top].deletedAt == Some(stamp)
    ensures RestoreSet(t, top, t[top].owner) == set x | x in t && t[x].deletedAt == Some(stamp)
  {
    var rank :| Ranked(ParentsOf(t), rank);
    var x0 :| x0 in t && t[x0].deletedAt == Some(stamp);
    MemberReachesTop(t, stamp, top, rank, x0);
    forall x | x in t && t[x].deletedAt == Some(stamp)
      ensures x in RestoreSet(t, top, t[top].owner)
    {
      MemberReachesTop(t, stamp, top, rank, x);
    }
  }

  lemma {:induction false} MemberReachesTop(t: Table, stamp: Time, top: Id, rank: map<Id, nat>, x: Id)
    requires Ranked(ParentsOf(t), rank) && TopOf(t, stamp, top)
    requires x in t && t[x].deletedAt == Some(stamp)
    ensures top in t && t[top].owner == t[x].owner && t[top].deletedAt == Some(stamp)
    ensures x in Subtree(ParentsOf(t), StampedRows(t, t[x].owner, stamp), top)
    decreases rank[x]
  {
    var ok := StampedRows(t, t[x].owner, stamp);
    ReachesStep(ParentsOf(t), ok, x, top);
    if x != top {
      assert AttachedInBatch(t, stamp, x);
      MemberReachesTop(t, stamp, top, rank, t[x].parent.value);
    }
  }

  /** The two ways a live row can come to lie below its owner's trash: restored there, or created there. */
  predicate PutsLiveRowInTrash(t: Table, e: Event) {
    match e
    case Create(id, owner, parent, _, _) =>
      && CreateAllowed(t, e) && parent.Some?
      && t[parent.value].owner == owner && t[parent.value].deletedAt.Some?
    case Undelete(root, user) =>
      && root in t && t[root].owner == user && t[root].deletedAt.Some?
      && t[root].parent.Some? && t[root].parent.value in t
      && t[t[root].parent.value].owner == user && t[t[root].parent.value].deletedAt.Some?
    case _ => false
  }

  /** Every step keeps the trash closed downward, except exactly those two. */
  lemma StepKeepsDownClosed(t: Table, e: Event)
    requires Acyclic(ParentsOf(t)) && DownClosed(t)
    ensures DownClosed(Step(t, e)) <==> !PutsLiveRowInTrash(t, e)
  {
    var t' := Step(t, e);
    match e
    case Create(id, owner, parent, isFolder, _) =>
      if CreateAllowed(t, e) {
        if PutsLiveRowInTrash(t, e) {
          assert TrashedAbove(t', id);
        }
        forall x | TrashedAbove(t', x) && x != id
          ensures t'[x].deletedAt.Some?
        {
          assert TrashedAbove(t, x);
        }
      }
    case Finalize(id, user) =>
      forall x | TrashedAbove(t', x)
        ensures t'[x].deletedAt.Some?
      {
        assert TrashedAbove(t, x);
      }
    case MakeRoot(id, user, workspace) =>
      forall x | TrashedAbove(t', x)
        ensures t'[x].deletedAt.Some?
      {
        assert TrashedAbove(t, x);
      }
    case Move(id, dest) =>
      if MoveAllowed(t, id, dest) {
        forall x | TrashedAbove(t', x)
          ensures t'[x].deletedAt.Some?
        {
          assert x != id && TrashedAbove(t, x);
        }
      }
    case Delete(root, user, now) => SoftDeleteKeepsDownClosed(t, root, user, now);
    case Undelete(root, user) =>
      if root in t && t[root].owner == user && t[root].deletedAt.Some? {
        RestoreKeepsDownClosed(t, root, user);
      } else {
        assert t' == t;
      }
  }

  // -------------------------------------------------------------------
  // The trash listing
  // -------------------------------------------------------------------

  /** What the listing of a user's trash selects: finished rows of their own, outside workspaces and not their roots. */
  predicate Selected(row: Row, owner: User) {
    row.owner == owner && row.deletedAt.Some? && row.uploadComplete && row.workspace.None? && !row.workspaceRoot
  }

  /** What it shows: selected, and not hidden behind a selected parent with the same stamp. */
  predicate ListedInTrash(t: Table, owner: User, x: Id) {
    && x in t && Selected(t[x], owner)
    && !(&& t[x].parent.Some? && t[x].parent.value in t
         && Selected(t[t[x].parent.value], owner)
         && t[t[x].parent.value].deletedAt == t[x].deletedAt)
  }

  /**
   Listed are the owner's finished trashed rows outside workspaces, but for those that hang
   from another such row with the same stamp.
   */
  lemma ListedExactly(t: Table, owner: User, x: Id)
    ensures ListedInTrash(t, owner, x) <==>
            && x in t && t[x].owner == owner && t[x].deletedAt.Some? && t[x].uploadComplete
            && t[x].workspace.None? && !t[x].workspaceRoot
            && (t[x].parent.Some? && t[x].parent.value in t && t[t[x].parent.value].owner == owner
                && t[t[x].parent.value].deletedAt == t[x].deletedAt ==>
                  var p := t[t[x].parent.value];
                  !p.uploadComplete || p.workspace.Some? || p.workspaceRoot)
  {
  }

  ghost function RestoreEach(t: Table, owner: User, xs: seq<Id>): Table
    decreases |xs|
  {
    if xs == [] then t else RestoreEach(Restore(t, xs[0], owner), owner, xs[1..])
  }

  predicate InOwnTrash(t: Table, owner: User, x: Id) {
    x in t && t[x].owner == owner && t[x].deletedAt.Some?
  }

  /** The rows that share the stamp of `x`. */
  function Companions(t: Table, owner: User, x: Id): set<Id>
    requires InOwnTrash(t, owner, x)
  {
    StampedRows(t, owner, t[x].deletedAt.value)
  }

  /** No row of its batch at or above `x` is selected. */
  ghost predicate Stranded(t: Table, owner: User, x: Id) {
    && InOwnTrash(t, owner, x)
    && forall y :: y in t && Reaches(ParentsOf(t), Companions(t, owner, x), x, y) ==> !Selected(t[y], owner)
  }

  lemma {:induction false} SelectedHasListedAncestor(t: Table, owner: User, rank: map<Id, nat>, x: Id) returns (y: Id)
    requires Ranked(ParentsOf(t), rank) && x in t && Selected(t[x], owner)
    ensures ListedInTrash(t, owner, y) && t[y].deletedAt == t[x].deletedAt
    ensures x in RestoreSet(t, y, owner)
    decreases rank[x]
  {
    if ListedInTrash(t, owner, x) {
      y := x;
    } else {
      y := SelectedHasListedAncestor(t, owner, rank, t[x].parent.value);
    }
    ReachesStep(ParentsOf(t), Companions(t, owner, x), x, y);
  }

  lemma UnstrandedHasListedAncestor(t: Table, owner: User, x: Id) returns (y: Id)
    requires Acyclic(ParentsOf(t)) && InOwnTrash(t, owner, x) && !Stranded(t, owner, x)
    ensures ListedInTrash(t, owner, y) && x in RestoreSet(t, y, owner)
  {
    var rank :| Ranked(ParentsOf(t), rank);
    var par, ok := ParentsOf(t), Companions(t, owner, x);
    var z :| z in t && Reaches(par, ok, x, z) && Selected(t[z], owner);
    var n: nat :| Climbs(par, ok, x, z, n);
    AncestorsExist(par, ok, x, z, n);
    y := SelectedHasListedAncestor(t, owner, rank, z);
    ReachesTransitive(par, ok, x, z, y);
  }

  /** Rows that a restore does not clear keep their whole chain of companions. */
  lemma {:induction false} ChainsSurvive(t: Table, owner: User, r: Id, s: Time, x: Id, y: Id, n: nat)
    requires InOwnTrash(t, owner, r) && x in t && x !in RestoreSet(t, r, owner)
    ensures Climbs(ParentsOf(t), StampedRows(t, owner, s), x, y, n) <==>
            Climbs(ParentsOf(t), StampedRows(Restore(t, r, owner), owner, s), x, y, n)
    ensures Climbs(ParentsOf(t), StampedRows(t, owner, s), x, y, n) ==> y in t && y !in RestoreSet(t, r, owner)
    decreases n
  {
    if n > 0 && t[x].parent.Some? && t[x].parent.value in t && x in StampedRows(t, owner, s) {
      var p := t[x].parent.value;
      ReachesStep(ParentsOf(t), Companions(t, owner, r), x, r);
      ReachesStep(ParentsOf(t), Companions(t, owner, r), p, r);
      if p in RestoreSet(t, r, owner) {
        assert p !in StampedRows(t, owner, s);
      } else {
        ChainsSurvive(t, owner, r, s, p, y, n - 1);
      }
    }
  }

  lemma StrandedSurvives(t: Table, owner: User, r: Id, x: Id)
    requires ListedInTrash(t, owner, r)
    ensures Stranded(Restore(t, r, owner), owner, x) <==> Stranded(t, owner, x)
    ensures Stranded(t, owner, x) ==> x !in RestoreSet(t, r, owner)
  {
    var t' := Restore(t, r, owner);
    assert ParentsOf(t') == ParentsOf(t);
    if x in RestoreSet(t, r, owner) {
      ReachesStep(ParentsOf(t), Companions(t, owner, r), x, r);
      assert Reaches(ParentsOf(t), Companions(t, owner, r), x, r);
    } else if InOwnTrash(t, owner, x) {
      forall y
        ensures Reaches(ParentsOf(t), Companions(t, owner, x), x, y) <==>
                Reaches(ParentsOf(t'), Companions(t', owner, x), x, y)
        ensures Reaches(ParentsOf(t), Companions(t, owner, x), x, y) ==> y in t && t'[y] == t[y]
      {
        forall n: nat
          ensures Climbs(ParentsOf(t), Companions(t, owner, x), x, y, n) <==>
                  Climbs(ParentsOf(t'), Companions(t', owner, x), x, y, n)
          ensures Climbs(ParentsOf(t), Companions(t, owner, x), x, y, n) ==> y in t && t'[y] == t[y]
        {
          ChainsSurvive(t, owner, r, t[x].deletedAt.value, x, y, n);
        }
      }
    }
  }

  /** One restore of a listed row takes rows off the listing and puts none on it. */
  lemma ListingShrinks(t: Table, owner: User, r: Id, x: Id)
    requires ListedInTrash(t, owner, r)
    ensures ListedInTrash(Restore(t, r, owner), owner, x) <==>
            ListedInTrash(t, owner, x) && x !in RestoreSet(t, r, owner)
    ensures r in RestoreSet(t, r, owner)
  {
    var ok := Companions(t, owner, r);
    ReachesStep(ParentsOf(t), ok, r, r);
    ReachesStep(ParentsOf(t), ok, x, r);
  }

  lemma {:induction false} RestoringListedRows(t: Table, owner: User, xs: seq<Id>, x: Id)
    requires Acyclic(ParentsOf(t)) && x in t
    requires forall y :: ListedInTrash(t, owner, y) ==> y in xs
    requires forall y :: y in xs ==> ListedInTrash(t, owner, y) || !InOwnTrash(t, owner, y)
    ensures RestoreEach(t, owner, xs).Keys == t.Keys
    ensures RestoreEach(t, owner, xs)[x] ==
            if t[x].owner == owner && !Stranded(t, owner, x) then t[x].(deletedAt := None) else t[x]
    decreases |xs|
  {
    if xs == [] {
      if InOwnTrash(t, owner, x) && !Stranded(t, owner, x) {
        var y := UnstrandedHasListedAncestor(t, owner, x);
      }
    } else {
      var r := xs[0];
      var t' := Restore(t, r, owner);
      if ListedInTrash(t, owner, r) {
        assert ParentsOf(t') == ParentsOf(t);
        forall y
          ensures ListedInTrash(t', owner, y) ==> y in xs[1..]
          ensures y in xs[1..] ==> ListedInTrash(t', owner, y) || !InOwnTrash(t', owner, y)
        {
          ListingShrinks(t, owner, r, y);
        }
        StrandedSurvives(t, owner, r, x);
        RestoreKeepsOthers(t, owner, r, x);
        RestoringListedRows(t', owner, xs[1..], x);
      } else {
        assert t' == t;
        RestoringListedRows(t, owner, xs[1..], x);
      }
    }
  }

  lemma RestoreKeepsOthers(t: Table, owner: User, r: Id, x: Id)
    requires x in t
    ensures Restore(t, r, owner)[x] == if x in RestoreSet(t, r, owner) then t[x].(deletedAt := None) else t[x]
    ensures x in RestoreSet(t, r, owner) ==> t[x].owner == owner
  {
    if x in RestoreSet(t, r, owner) {
      ReachesStep(ParentsOf(t), StampedRows(t, owner, t[r].deletedAt.value), x, r);
    }
  }

  /** A trashed row at the top of its batch that the listing does not select. */
  predicate HiddenTop(t: Table, owner: User, x: Id) {
    && InOwnTrash(t, owner, x) && !Selected(t[x], owner)
    && !(t[x].parent.Some? && t[x].parent.value in Companions(t, owner, x))
  }

  lemma HiddenTopIsStranded(t: Table, owner: User, x: Id)
    requires HiddenTop(t, owner, x)
    ensures Stranded(t, owner, x)
  {
    forall y | Reaches(ParentsOf(t), Companions(t, owner, x), x, y)
      ensures y == x
    {
      var n: nat :| Climbs(ParentsOf(t), Companions(t, owner, x), x, y, n);
      ReachesStep(ParentsOf(t), Companions(t, owner, x), x, y);
    }
    assert Climbs(ParentsOf(t), Companions(t, owner, x), x, x, 0);
  }

  lemma {:induction false} StrandedHasHiddenTop(t: Table, owner: User, rank: map<Id, nat>, x: Id) returns (y: Id)
    requires Ranked(ParentsOf(t), rank) && Stranded(t, owner, x)
    ensures HiddenTop(t, owner, y)
    decreases rank[x]
  {
    var par, ok := ParentsOf(t), Companions(t, owner, x);
    assert Climbs(par, ok, x, x, 0);
    assert Reaches(par, ok, x, x);
    if HiddenTop(t, owner, x) {
      y := x;
    } else {
      var p := t[x].parent.value;
      forall z | z in t && Reaches(par, ok, p, z)
        ensures !Selected(t[z], owner)
      {
        var n: nat :| Climbs(par, ok, p, z, n);
        assert Climbs(par, ok, x, z, n + 1);
      }
      y := StrandedHasHiddenTop(t, owner, rank, p);
    }
  }

  /**
   Restoring every listed row, in any order and with any repetition, brings back exactly
   the owner's rows that are not stranded, and touches nothing else. That empties the
   owner's trash if and only if no batch has a top the listing does not select.
   */
  lemma RestoringTheListing(t: Table, owner: User, xs: seq<Id>)
    requires Acyclic(ParentsOf(t)) && forall x :: x in xs <==> ListedInTrash(t, owner, x)
    ensures var t' := RestoreEach(t, owner, xs);
            && t'.Keys == t.Keys
            && (forall x :: x in t ==>
                  t'[x] == if t[x].owner == owner && !Stranded(t, owner, x) then t[x].(deletedAt := None) else t[x])
            && ((forall x :: !InOwnTrash(t', owner, x)) <==> (forall x :: !HiddenTop(t, owner, x)))
  {
    var t' := RestoreEach(t, owner, xs);
    RestoreEachKeepsRows(t, owner, xs);
    forall x | x in t
      ensures t'[x] == if t[x].owner == owner && !Stranded(t, owner, x) then t[x].(deletedAt := None) else t[x]
    {
      RestoringListedRows(t, owner, xs, x);
    }
    assert forall x :: InOwnTrash(t', owner, x) <==> Stranded(t, owner, x);
    if x :| HiddenTop(t, owner, x) {
      HiddenTopIsStranded(t, owner, x);
    } else if x :| Stranded(t, owner, x) {
      var rank :| Ranked(ParentsOf(t), rank);
      var y := StrandedHasHiddenTop(t, owner, rank, x);
    }
  }

  lemma {:induction false} RestoreEachKeepsRows(t: Table, owner: User, xs: seq<Id>)
    ensures RestoreEach(t, owner, xs).Keys == t.Keys
    decreases |xs|
  {
    if xs != [] {
      RestoreEachKeepsRows(Restore(t, xs[0], owner), owner, xs[1..]);
    }
  }

  /** The condition can fail: an unfinished upload that its owner trashes is never listed. */
  lemma UnfinishedUploadIsNeverListed(owner: User, now: Time)
    ensures var t := map[0 := Row(owner, None, false, false, None, false, None)];
            var trashed := Step(t, Delete(0, owner, now));
            InOwnTrash(trashed, owner, 0) && forall x :: !ListedInTrash(trashed, owner, x)
  {
    var t := map[0 := Row(owner, None, false, false, None, false, None)];
    ReachesStep(ParentsOf(t), LiveRows(t, owner), 0, 0);
  }

  /**
   What is restored with a listed row is hidden behind it, unless it is selected and the
   row it hangs from is not.
   */
  lemma HiddenBehindListed(t: Table, owner: User, y: Id, x: Id)
    requires x in RestoreSet(t, y, owner) && x != y
    ensures t[x].parent.Some? && t[x].parent.value in RestoreSet(t, y, owner)
    ensures ListedInTrash(t, owner, x) <==> Selected(t[x], owner) && !Selected(t[t[x].parent.value], owner)
  {
    var par, ok := ParentsOf(t), StampedRows(t, owner, t[y].deletedAt.value);
    ReachesStep(par, ok, x, y);
    ReachesStep(par, ok, par[x].value, y);
  }

  /** So where a batch is all of finished rows outside workspaces, it has one entry. */
  lemma OneEntryPerBatch(t: Table, owner: User, y: Id, x: Id)
    requires ListedInTrash(t, owner, y) && forall z :: z in RestoreSet(t, y, owner) ==> Selected(t[z], owner)
    ensures x in RestoreSet(t, y, owner) ==> (ListedInTrash(t, owner, x) <==> x == y)
  {
    if x in RestoreSet(t, y, owner) && x != y {
      HiddenBehindListed(t, owner, y, x);
    }
  }

  // -------------------------------------------------------------------
  // Storage keys of a subtree
  // -------------------------------------------------------------------

  datatype Chunk = Chunk(fileId: Id, storageKey: string, shard: int)

  /** Chunks joined to a list of file ids, one output row per matching pair. */
  function JoinChunks(chunks: seq<Chunk>, ids: seq<Id>): seq<Chunk> {
    if chunks == [] then [] else
      RepeatChunk(chunks[0], multiset(ids)[chunks[0].fileId]) + JoinChunks(chunks[1..], ids)
  }

  function RepeatChunk(c: Chunk, n: nat): seq<Chunk> {
    if n == 0 then [] else [c] + RepeatChunk(c, n - 1)
  }

  function ChunksOf(chunks: seq<Chunk>, ids: set<Id>): seq<Chunk> {
    if chunks == [] then [] else
      (if chunks[0].fileId in ids then [chunks[0]] else []) + ChunksOf(chunks[1..], ids)
  }

  lemma {:induction false} JoinIsFilter(chunks: seq<Chunk>, ids: seq<Id>, found: set<Id>)
    requires multiset(ids) == multiset(found)
    ensures JoinChunks(chunks, ids) == ChunksOf(chunks, found)
    decreases |chunks|
  {
    if chunks != [] {
      JoinIsFilter(chunks[1..], ids, found);
      var c := chunks[0];
      assert RepeatChunk(c, 0) == [] && RepeatChunk(c, 1) == [c] + RepeatChunk(c, 0);
    }
  }

  /** A chunk is returned as often as it is stored when its file is in the set, and never otherwise. */
  lemma {:induction false} ChunksOfCount(chunks: seq<Chunk>, ids: set<Id>, c: Chunk)
    ensures multiset(ChunksOf(chunks, ids))[c] == if c.fileId in ids then multiset(chunks)[c] else 0
    decreases |chunks|
  {
    if chunks != [] {
      ChunksOfCount(chunks[1..], ids, c);
      assert chunks == [chunks[0]] + chunks[1..];
    }
  }

  /** Two rows neither of which is below the other have subtrees, hence storage keys, with nothing in common. */
  lemma SeparateSubtreesShareNothing(t: Table, owner: User, a: Id, b: Id, chunks: seq<Chunk>)
    requires a !in Subtree(ParentsOf(t), OwnedRows(t, owner), b)
    requires b !in Subtree(ParentsOf(t), OwnedRows(t, owner), a)
    ensures Subtree(ParentsOf(t), OwnedRows(t, owner), a) !! Subtree(ParentsOf(t), OwnedRows(t, owner), b)
    ensures multiset(ChunksOf(chunks, Subtree(ParentsOf(t), OwnedRows(t, owner), a))) !!
            multiset(ChunksOf(chunks, Subtree(ParentsOf(t), OwnedRows(t, owner), b)))
  {
    var par, ok := ParentsOf(t), OwnedRows(t, owner);
    forall x | x in Subtree(par, ok, a)
      ensures x !in Subtree(par, ok, b)
    {
      var m: nat :| Climbs(par, ok, x, a, m);
      AncestorsExist(par, ok, x, a, m);
      if x in Subtree(par, ok, b) {
        var n: nat :| Climbs(par, ok, x, b, n);
        AncestorsExist(par, ok, x, b, n);
        OnOneLine(par, ok, x, a, b, m, n);
      }
    }
    forall c: Chunk
      ensures || c !in multiset(ChunksOf(chunks, Subtree(par, ok, a)))
              || c !in multiset(ChunksOf(chunks, Subtree(par, ok, b)))
    {
      ChunksOfCount(chunks, Subtree(par, ok, a), c);
      ChunksOfCount(chunks, Subtree(par, ok, b), c);
    }
  }
}
