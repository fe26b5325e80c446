/**
 Opening files: the move dialog's walk down a path, carrying private keys, and
 the walk up the parent chain behind a download.
 */
module KeyWalk {
  import opened Common
  import opened Forest
  import opened KeyTree

  /** One row of a listing: the user's own grant if there is one, else the claim under the carried key. */
  function OpenNode(st: Server, u: User, f: Id, carried: Option<Key>): Option<Keys>
    requires f in st.files
  {
    var row := st.files[f];
    if (f, u) in st.grants then
      var g := st.grants[(f, u)];
      match Unseal(g.box, g.wrappedBy, UserKey(u))
      case None => None
      case Some(priv) =>
        match Unseal(row.sessionBox, UserKey(row.owner), priv)
        case None => None
        case Some(session) => Some(Keys(session, priv))
    else if carried.Some? && row.claim.Some? then
      Unseal(row.claim.value.box, row.claim.value.wrappedBy, carried.value)
    else None
  }

  /** A row is listed when it opens and its metadata decrypts. */
  function ListNode(st: Server, u: User, f: Id, carried: Option<Key>): Option<Keys>
    requires f in st.files
  {
    match OpenNode(st, u, f, carried)
    case None => None
    case Some(k) => if k.session == st.files[f].metaKey then Some(k) else None
  }

  /** The carried key is the private key of the row's parent. */
  predicate CarriesParent(st: Server, f: Id, carried: Option<Key>)
    requires f in st.files
  {
    carried.Some? ==> st.files[f].parent.Some? && st.files[f].parent.value in st.files
                      && carried.value == st.files[st.files[f].parent.value].pub
  }

  /** The grant and the claim of one row lead to the same session key and private key. */
  lemma BranchesAgree(st: Server, u: User, f: Id, carried: Option<Key>)
    requires Sound(st) && f in st.files && CarriesParent(st, f, carried)
    ensures ListNode(st, u, f, carried) ==
            if (f, u) in st.grants || carried.Some? then Some(TrueKeys(st.files[f])) else None
  {
    assert RowSound(st, f) && ClaimSound(st, f);
    if (f, u) in st.grants {
      assert GrantSound(st, f, u);
    }
  }

  /** Consecutive entries are parent and child. */
  predicate Linked(st: Server, path: seq<Id>) {
    && (forall i :: 0 <= i < |path| ==> path[i] in st.files)
    && (forall i :: 0 < i < |path| ==> st.files[path[i]].parent == Some(path[i - 1]))
  }

  /** Walk down `path`, listing one folder after another; a row that is not listed cannot be entered. */
  function Walk(st: Server, u: User, path: seq<Id>, carried: Option<Key>): Option<Keys>
    requires path != [] && forall i :: 0 <= i < |path| ==> path[i] in st.files
    decreases |path|
  {
    match ListNode(st, u, path[0], carried)
    case None => None
    case Some(k) => if |path| == 1 then Some(k) else Walk(st, u, path[1..], Some(k.priv))
  }

  /** A walk succeeds exactly when it gets past its first row, and then ends in the true keys of its last row. */
  lemma {:induction false} WalkEndsInTrueKeys(st: Server, u: User, path: seq<Id>, carried: Option<Key>)
    requires Sound(st) && path != [] && Linked(st, path) && CarriesParent(st, path[0], carried)
    ensures Walk(st, u, path, carried) ==
            if (path[0], u) in st.grants || carried.Some? then Some(TrueKeys(st.files[path[|path| - 1]])) else None
    decreases |path|
  {
    BranchesAgree(st, u, path[0], carried);
    if |path| > 1 && ((path[0], u) in st.grants || carried.Some?) {
      assert RowSound(st, path[0]) && ClaimSound(st, path[1]);
      WalkEndsInTrueKeys(st, u, path[1..], Some(st.files[path[0]].pub));
    }
  }

  /** The user has a grant on the file or on one of its ancestors. */
  ghost predicate Covered(st: Server, u: User, f: Id) {
    exists a :: (a, u) in st.grants && Reaches(ParentsOf(st), ParentsOf(st).Keys, f, a)
  }

  /** Some walk from scratch, holding nothing but the user's own key, opens the file as `k`. */
  ghost predicate Reads(st: Server, u: User, f: Id, k: Keys) {
    exists path :: WalksTo(st, u, path, f, k)
  }

  predicate WalksTo(st: Server, u: User, path: seq<Id>, f: Id, k: Keys) {
    path != [] && Linked(st, path) && path[|path| - 1] == f && Walk(st, u, path, None) == Some(k)
  }

  /** What a user can open is exactly what their grants cover, and it always opens as the true keys. */
  lemma ReadsExactlyWhatIsCovered(st: Server, u: User, f: Id, k: Keys)
    requires Sound(st)
    ensures Reads(st, u, f, k) <==> f in st.files && Covered(st, u, f) && k == TrueKeys(st.files[f])
  {
    if Reads(st, u, f, k) {
      var path :| WalksTo(st, u, path, f, k);
      WalkEndsInTrueKeys(st, u, path, None);
      PathClimbs(st, path);
      assert Reaches(ParentsOf(st), ParentsOf(st).Keys, f, path[0]);
    }
    if f in st.files && Covered(st, u, f) && k == TrueKeys(st.files[f]) {
      var a :| (a, u) in st.grants && Reaches(ParentsOf(st), ParentsOf(st).Keys, f, a);
      var n: nat :| Climbs(ParentsOf(st), ParentsOf(st).Keys, f, a, n);
      var path := PathFor(st, f, a, n);
      WalkEndsInTrueKeys(st, u, path, None);
      assert WalksTo(st, u, path, f, k);
    }
  }

  lemma {:induction false} PathClimbs(st: Server, path: seq<Id>)
    requires path != [] && Linked(st, path)
    ensures Climbs(ParentsOf(st), ParentsOf(st).Keys, path[|path| - 1], path[0], |path| - 1)
    decreases |path|
  {
    if |path| > 1 {
      PathClimbs(st, path[..|path| - 1]);
    }
  }

  lemma {:induction false} PathFor(st: Server, f: Id, a: Id, n: nat) returns (path: seq<Id>)
    requires Climbs(ParentsOf(st), ParentsOf(st).Keys, f, a, n)
    ensures path != [] && Linked(st, path) && path[0] == a && path[|path| - 1] == f
    decreases n
  {
    if n == 0 {
      path := [f];
    } else {
      path := PathFor(st, st.files[f].parent.value, a, n - 1);
      path := path + [f];
    }
  }

  // -------------------------------------------------------------------
  // Walking where some claims do not open
  // -------------------------------------------------------------------

  /** Climbing `n` claims that all open leads from the file to a grant. */
  predicate Route(st: Server, u: User, f: Id, n: nat)
    decreases n
  {
    && f in st.files
    && if n == 0 then (f, u) in st.grants
       else st.files[f].parent.Some? && ClaimSound(st, f) && Route(st, u, st.files[f].parent.value, n - 1)
  }

  ghost predicate HasRoute(st: Server, u: User, f: Id) {
    exists n: nat :: Route(st, u, f, n)
  }

  /** The claim opens with the parent's key, but not as the file's own keys. */
  predicate Stray(st: Server, c: Id)
    requires c in st.files
  {
    var row := st.files[c];
    && row.parent.Some? && row.parent.value in st.files && row.claim.Some?
    && var k := Unseal(row.claim.value.box, row.claim.value.wrappedBy, st.files[row.parent.value].pub);
    k.Some? && k != Some(TrueKeys(row))
  }

  /** All in order except possibly claims, and what hangs below a stray claim is in order again. */
  ghost predicate Walkable(st: Server) {
    && RowsSound(st) && GrantsSound(st)
    && (forall c :: c in st.files && st.files[c].parent.Some? ==>
          st.files[c].parent.value in st.files && st.files[st.files[c].parent.value].isFolder)
    && (forall c, d :: c in st.files && d in st.files && Stray(st, c) && st.files[d].parent == Some(c) ==>
          ClaimSound(st, d))
  }

  predicate CarriesTrueParent(st: Server, f: Id, carried: Option<Key>)
    requires f in st.files
  {
    carried.Some? && CarriesParent(st, f, carried)
  }

  /** With a grant, or with the parent's key and a claim in order, a row opens as it should. */
  lemma OpensTruly(st: Server, u: User, f: Id, carried: Option<Key>)
    requires f in st.files && RowSound(st, f) && ((f, u) in st.grants ==> GrantSound(st, f, u))
    requires (f, u) in st.grants || (CarriesTrueParent(st, f, carried) && ClaimSound(st, f))
    ensures ListNode(st, u, f, carried) == Some(TrueKeys(st.files[f]))
  {
  }

  lemma {:induction false} WalkOneMore(st: Server, u: User, path: seq<Id>, f: Id, carried: Option<Key>)
    requires path != [] && f in st.files && forall i :: 0 <= i < |path| ==> path[i] in st.files
    requires Walk(st, u, path, carried).Some?
    ensures Walk(st, u, path + [f], carried) == ListNode(st, u, f, Some(Walk(st, u, path, carried).value.priv))
    decreases |path|
  {
    var k := ListNode(st, u, path[0], carried).value;
    assert (path + [f])[1..] == path[1..] + [f];
    if |path| == 1 {
      assert (path + [f])[1..] == [f];
    } else {
      WalkOneMore(st, u, path[1..], f, Some(k.priv));
    }
  }

  lemma {:induction false} RouteOpens(st: Server, u: User, f: Id, n: nat) returns (path: seq<Id>)
    requires Walkable(st) && Route(st, u, f, n)
    ensures WalksTo(st, u, path, f, TrueKeys(st.files[f]))
    decreases n
  {
    assert RowSound(st, f) && ((f, u) in st.grants ==> GrantSound(st, f, u));
    if n == 0 {
      path := [f];
      OpensTruly(st, u, f, None);
    } else {
      path := RouteOpens(st, u, st.files[f].parent.value, n - 1);
      WalkOneMore(st, u, path, f, None);
      OpensTruly(st, u, f, Some(st.files[st.files[f].parent.value].pub));
      path := path + [f];
    }
  }

  lemma {:induction false} RouteDown(st: Server, u: User, path: seq<Id>)
    requires path != [] && Linked(st, path) && (path[0], u) in st.grants
    requires forall i :: 0 < i < |path| ==> ClaimSound(st, path[i])
    ensures Route(st, u, path[|path| - 1], |path| - 1)
    decreases |path|
  {
    if |path| > 1 {
      RouteDown(st, u, path[..|path| - 1]);
    }
  }

  /** A walk that leaves a stray claim with the wrong key opens nothing further without a grant. */
  lemma StrayEndsWalk(st: Server, u: User, c: Id, d: Id, k: Keys)
    requires Walkable(st) && c in st.files && d in st.files && Stray(st, c) && st.files[d].parent == Some(c)
    requires k != TrueKeys(st.files[c]) && k.session == st.files[c].metaKey && (d, u) !in st.grants
    ensures ListNode(st, u, d, Some(k.priv)) == None && !CarriesTrueParent(st, d, Some(k.priv))
  {
    assert RowSound(st, c) && ClaimSound(st, d);
  }

  ghost predicate AllOpen(st: Server, path: seq<Id>)
    requires forall i :: 0 <= i < |path| ==> path[i] in st.files
  {
    forall i :: 0 <= i < |path| ==> ClaimSound(st, path[i])
  }

  lemma {:induction false} WalkHasRoute(st: Server, u: User, path: seq<Id>, carried: Option<Key>)
    requires Walkable(st) && path != [] && Linked(st, path)
    requires (path[0], u) in st.grants || CarriesTrueParent(st, path[0], carried)
    requires Walk(st, u, path, carried) == Some(TrueKeys(st.files[path[|path| - 1]]))
    ensures HasRoute(st, u, path[|path| - 1]) || (CarriesTrueParent(st, path[0], carried) && AllOpen(st, path))
    decreases |path|
  {
    var c, rest := path[0], path[1..];
    assert RowSound(st, c) && ((c, u) in st.grants ==> GrantSound(st, c, u));
    var k := ListNode(st, u, c, carried).value;
    if |path| == 1 {
      if (c, u) in st.grants { assert Route(st, u, c, 0); }
    } else {
      var d := path[1];
      assert st.files[d].parent == Some(c) && rest[0] == d && rest[|rest| - 1] == path[|path| - 1];
      if (c, u) in st.grants || ClaimSound(st, c) {
        OpensTruly(st, u, c, carried);
        WalkHasRoute(st, u, rest, Some(k.priv));
        if (c, u) in st.grants && AllOpen(st, rest) {
          assert forall i :: 0 < i < |path| ==> path[i] == rest[i - 1];
          RouteDown(st, u, path);
        }
      } else {
        assert Stray(st, c) && k != TrueKeys(st.files[c]);
        if (d, u) !in st.grants { StrayEndsWalk(st, u, c, d, k); }
        WalkHasRoute(st, u, rest, Some(k.priv));
        assert k.priv != st.files[c].pub;
      }
    }
  }

  /** What a user can open is exactly what has a route. */
  lemma ReadsByRoute(st: Server, u: User, f: Id)
    requires Walkable(st) && f in st.files
    ensures Reads(st, u, f, TrueKeys(st.files[f])) <==> HasRoute(st, u, f)
  {
    if HasRoute(st, u, f) {
      var n: nat :| Route(st, u, f, n);
      var path := RouteOpens(st, u, f, n);
    }
    if Reads(st, u, f, TrueKeys(st.files[f])) {
      var path :| WalksTo(st, u, path, f, TrueKeys(st.files[f]));
      WalkHasRoute(st, u, path, None);
    }
  }

  // -------------------------------------------------------------------
  // The listing of the move dialog
  // -------------------------------------------------------------------

  datatype FolderEntry = FolderEntry(id: Id, pub: Key, priv: Key)

  /** A folder other than the one being moved, readable here. */
  predicate Listed(st: Server, u: User, moving: Id, carried: Option<Key>, f: Id) {
    && f in st.files && st.files[f].isFolder && f != moving
    && ListNode(st, u, f, carried).Some?
  }

  /**
   fetchFolders: loop over the rows the server returned. In a sound database the
   result holds, in the order received, exactly the folders the user may enter,
   each with the private key that matches its public key.
   */
  method FetchFolders(st: Server, u: User, rows: seq<Id>, moving: Id, carried: Option<Key>)
    returns (result: seq<FolderEntry>)
    requires forall i :: 0 <= i < |rows| ==> rows[i] in st.files
    ensures Names(result) == Keep(st, u, moving, carried, rows)
    ensures Sound(st) && (forall i :: 0 <= i < |rows| ==> CarriesParent(st, rows[i], carried)) ==>
              forall e :: e in result ==> e.id in st.files && e.pub == e.priv == st.files[e.id].pub
  {
    result := [];
    for i := 0 to |rows|
      invariant Names(result) == Keep(st, u, moving, carried, rows[..i])
      invariant Sound(st) && (forall i :: 0 <= i < |rows| ==> CarriesParent(st, rows[i], carried)) ==>
                  forall e :: e in result ==> e.id in st.files && e.pub == e.priv == st.files[e.id].pub
    {
      var f := rows[i];
      KeepOneMore(st, u, moving, carried, rows, i);
      if !st.files[f].isFolder { continue; }
      if f == moving { continue; }
      var k := ListNode(st, u, f, carried);
      if k.Some? {
        if Sound(st) && CarriesParent(st, f, carried) {
          BranchesAgree(st, u, f, carried);
        }
        NamesOneMore(result, FolderEntry(f, st.files[f].pub, k.value.priv));
        result := result + [FolderEntry(f, st.files[f].pub, k.value.priv)];
      }
    }
    assert rows[..|rows|] == rows;
  }

  function Names(es: seq<FolderEntry>): seq<Id> {
    if es == [] then [] else [es[0].id] + Names(es[1..])
  }

  function Keep(st: Server, u: User, moving: Id, carried: Option<Key>, rows: seq<Id>): seq<Id> {
    if rows == [] then [] else
      (if Listed(st, u, moving, carried, rows[0]) then [rows[0]] else []) + Keep(st, u, moving, carried, rows[1..])
  }

  lemma {:induction false} NamesOneMore(es: seq<FolderEntry>, e: FolderEntry)
    ensures Names(es + [e]) == Names(es) + [e.id]
    decreases |es|
  {
    if es != [] {
      NamesOneMore(es[1..], e);
      assert (es + [e])[1..] == es[1..] + [e];
    }
  }

  lemma {:induction false} KeepAppend(st: Server, u: User, moving: Id, carried: Option<Key>, rows: seq<Id>, f: Id)
    ensures Keep(st, u, moving, carried, rows + [f]) ==
            Keep(st, u, moving, carried, rows) + if Listed(st, u, moving, carried, f) then [f] else []
    decreases |rows|
  {
    if rows != [] {
      KeepAppend(st, u, moving, carried, rows[1..], f);
      assert (rows + [f])[1..] == rows[1..] + [f];
    }
  }

  lemma KeepOneMore(st: Server, u: User, moving: Id, carried: Option<Key>, rows: seq<Id>, i: nat)
    requires i < |rows|
    ensures Keep(st, u, moving, carried, rows[..i + 1]) ==
            Keep(st, u, moving, carried, rows[..i]) + if Listed(st, u, moving, carried, rows[i]) then [rows[i]] else []
  {
    assert rows[..i + 1] == rows[..i] + [rows[i]];
    KeepAppend(st, u, moving, carried, rows[..i], rows[i]);
  }

  // -------------------------------------------------------------------
  // The walk up the chain
  // -------------------------------------------------------------------

  function OpenGrant(st: Server, u: User, f: Id): Option<Key>
    requires (f, u) in st.grants
  {
    Unseal(st.grants[(f, u)].box, st.grants[(f, u)].wrappedBy, UserKey(u))
  }

  /**
   getFileForDownload above the file itself: the server looks for a grant on the parent,
   goes on from there unless the parent is trashed, at most 64 levels, and the client
   opens the claims on the way back down.
   */
  function OpenFromAbove(st: Server, u: User, f: Id, budget: nat := MAX_DEPTH): Option<Key>
    decreases budget
  {
    if budget == 0 || f !in st.files || st.files[f].parent.None? || st.files[f].claim.None? then None
    else
      var p, c := st.files[f].parent.value, st.files[f].claim.value;
      var above := if (p, u) in st.grants then OpenGrant(st, u, p)
                   else if p !in st.files || st.files[p].trashed then None
                   else OpenFromAbove(st, u, p, budget - 1);
      match above
      case None => None
      case Some(priv) =>
        match Unseal(c.box, c.wrappedBy, priv)
        case None => None
        case Some(k) => Some(k.priv)
  }

  /** The server answers for visible files only. */
  function Download(st: Server, u: User, f: Id): Option<Key> {
    if f !in st.files || !Visible(st.files[f]) then None
    else if (f, u) in st.grants then OpenGrant(st, u, f)
    else OpenFromAbove(st, u, f)
  }

  /** resolvePrivHier: a grant that came with the listing is opened without asking the server. */
  function ResolveUp(st: Server, u: User, f: Id): Option<Key> {
    if (f, u) in st.grants then OpenGrant(st, u, f) else Download(st, u, f)
  }

  function Untrashed(st: Server): set<Id> {
    set f | f in st.files && !st.files[f].trashed
  }

  /** At most `limit` levels up there is a row with a grant, and none below it is trashed; it may be trashed itself. */
  ghost predicate CoveredWithin(st: Server, u: User, f: Id, limit: nat) {
    exists a, n: nat :: n <= limit && (a, u) in st.grants && Climbs(ParentsOf(st), Untrashed(st) + {a}, f, a, n)
  }

  lemma CoveredStep(st: Server, u: User, f: Id, limit: nat)
    requires f in Untrashed(st) && (f, u) !in st.grants
    ensures CoveredWithin(st, u, f, limit) <==>
            && limit > 0 && st.files[f].parent.Some?
            && var p := st.files[f].parent.value;
            && p in st.files && ((p, u) in st.grants || (!st.files[p].trashed && CoveredWithin(st, u, p, limit - 1)))
  {
    var par, live := ParentsOf(st), Untrashed(st);
    if CoveredWithin(st, u, f, limit) {
      var a, n: nat :| n <= limit && (a, u) in st.grants && Climbs(par, live + {a}, f, a, n);
      assert Climbs(par, live + {a}, st.files[f].parent.value, a, n - 1);
    }
    if limit > 0 && st.files[f].parent.Some? && st.files[f].parent.value in st.files {
      var p := st.files[f].parent.value;
      if (p, u) in st.grants {
        assert Climbs(par, live + {p}, p, p, 0);
        assert Climbs(par, live + {p}, f, p, 1);
      } else if !st.files[p].trashed && CoveredWithin(st, u, p, limit - 1) {
        var a, n: nat :| n <= limit - 1 && (a, u) in st.grants && Climbs(par, live + {a}, p, a, n);
        assert Climbs(par, live + {a}, f, a, n + 1);
      }
    }
  }

  lemma {:induction false} OpenFromAboveExact(st: Server, u: User, f: Id, budget: nat)
    requires Sound(st) && f in Untrashed(st) && (f, u) !in st.grants
    ensures OpenFromAbove(st, u, f, budget) ==
            if CoveredWithin(st, u, f, budget) then Some(st.files[f].pub) else None
    decreases budget
  {
    assert ClaimSound(st, f);
    CoveredStep(st, u, f, budget);
    if budget > 0 && st.files[f].parent.Some? {
      var p := st.files[f].parent.value;
      if (p, u) in st.grants {
        assert GrantSound(st, p, u);
      } else if !st.files[p].trashed {
        OpenFromAboveExact(st, u, p, budget - 1);
      }
    }
  }

  /**
   A file with an own grant always opens. Any other opens exactly if it is visible and a
   grant is at most 64 levels up with nothing trashed below it, and then as the true key.
   */
  lemma ResolveUpExact(st: Server, u: User, f: Id)
    requires Sound(st) && f in st.files
    ensures ResolveUp(st, u, f) ==
            if (f, u) in st.grants || (Visible(st.files[f]) && CoveredWithin(st, u, f, 64))
            then Some(st.files[f].pub) else None
    ensures Download(st, u, f) ==
            if Visible(st.files[f]) && CoveredWithin(st, u, f, 64) then Some(st.files[f].pub) else None
  {
    if (f, u) in st.grants {
      assert GrantSound(st, f, u);
      assert Climbs(ParentsOf(st), Untrashed(st) + {f}, f, f, 0);
    } else if Visible(st.files[f]) {
      OpenFromAboveExact(st, u, f, MAX_DEPTH);
    }
  }
}
