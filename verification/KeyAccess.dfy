/**
 Who can read what, before and after a rotation: by the application's own walk,
 and by any combination of learned keys and wraps stored on the server.
 */
module KeyAccess {
  import opened Common
  import opened Forest
  import opened KeyTree
  import opened KeyWalk
  import opened KeyCommits
  import opened KeyRotation

  // -------------------------------------------------------------------
  // Access by the application's own walk
  // -------------------------------------------------------------------

  ghost predicate CanRead(st: Server, u: User, g: Id) {
    g in st.files && Reads(st, u, g, TrueKeys(st.files[g]))
  }

  /** Covered by some grant other than the one on `f`. */
  ghost predicate CoveredElsewhere(st: Server, u: User, g: Id, f: Id) {
    exists a :: a != f && (a, u) in st.grants && Reaches(ParentsOf(st), ParentsOf(st).Keys, g, a)
  }

  lemma CanReadIfCovered(st: Server, u: User, g: Id)
    requires Sound(st)
    ensures CanRead(st, u, g) <==> g in st.files && Covered(st, u, g)
  {
    if g in st.files {
      ReadsExactlyWhatIsCovered(st, u, g, TrueKeys(st.files[g]));
    }
  }

  /** The rotated row has new keys, one grant is gone, and all else that decides access is as before. */
  ghost predicate Rotated(st: Server, st': Server, f: Id, k: Keys, revoked: User) {
    && f in st.files
    && st'.files.Keys == st.files.Keys
    && ParentsOf(st') == ParentsOf(st)
    && (forall x :: x in st'.grants <==> x in st.grants && x != (f, revoked))
    && (forall g :: g in st.files ==> TrueKeys(st'.files[g]) == if g == f then k else TrueKeys(st.files[g]))
  }

  /** A commit of either route is such a rotation. */
  lemma CommitRotates(st: Server, caller: User, f: Id, v: View, pub: Key, session: Session, revoked: User)
    requires Sound(st) && Fresh(st, pub) && ListsOnce(v) && Owns(st, f, caller)
    requires AclVerdict(st, caller, f, Build(caller, v, pub, session, revoked)) == Ok
    ensures var st' := ExecuteAll(st, Statements(f, Build(caller, v, pub, session, revoked)));
            Rotated(st, st', f, Keys(session, pub), revoked)
  {
    var p := Build(caller, v, pub, session, revoked);
    var st' := ExecuteAll(st, Statements(f, p));
    CommitSucceeds(st, caller, f, v, pub, session, revoked);
    GrantsLeftSound(st, caller, f, v, pub, session, revoked, st');
    RowsLeftSound(st, caller, f, v, pub, session, revoked, st');
    forall g | g in st.files
      ensures TrueKeys(st'.files[g]) == if g == f then Keys(session, pub) else TrueKeys(st.files[g])
    {
      CommittedKeys(st, f, p, st', g);
    }
  }

  lemma CommittedKeys(st: Server, f: Id, p: Commit, st': Server, g: Id)
    requires RowsCommitted(st, f, p, st') && g in st.files
    ensures TrueKeys(st'.files[g]) == if g == f then Keys(p.sessionBox.payload, p.pub) else TrueKeys(st.files[g])
  {
    assert st'.files[g] == RowAfter(st, f, p, g);
  }

  // -------------------------------------------------------------------
  // Readers after any accepted commit
  // -------------------------------------------------------------------

  /** What decides whether a row's claim opens after the commit. */
  predicate Kept(st: Server, f: Id, v: View, c: Id)
    requires f in st.files && c in st.files
  {
    if c == f then ParentSeen(st, f, v)
    else st.files[c].parent == Some(f) ==> SeenAs(v, c, TrueKeys(st.files[c]))
  }

  lemma ClaimIsKept(st: Server, caller: User, f: Id, v: View, pub: Key, session: Session, revoked: User,
                    st': Server, c: Id)
    requires Sound(st) && Fresh(st, pub) && ListsOnce(v) && Owns(st, f, caller) && c in st.files
    requires RowsCommitted(st, f, Build(caller, v, pub, session, revoked), st')
    ensures c in st'.files && (ClaimSound(st', c) <==> Kept(st, f, v, c))
  {
    assert ClaimSound(st, c) && ClaimSound(st, f);
    NotOwnParent(st, f);
    if c == f {
      OwnClaim(st, caller, f, v, pub, session, revoked, st');
    } else if st.files[c].parent == Some(f) {
      ChildClaim(st, caller, f, v, pub, session, revoked, st', c);
    } else {
      OtherClaims(st, f, Build(caller, v, pub, session, revoked), st', c);
    }
  }

  lemma NotOwnGrandparent(st: Server, f: Id, c: Id)
    requires Sound(st) && f in st.files && c in st.files && st.files[c].parent == Some(f)
    ensures st.files[f].parent != Some(c)
  {
    var rank :| Ranked(ParentsOf(st), rank);
    assert ParentsOf(st)[f] == st.files[f].parent && ParentsOf(st)[c] == Some(f);
  }

  /** Only a child that was seen wrongly can be left with a stray claim. */
  lemma StraysAreChildren(st: Server, caller: User, f: Id, v: View, pub: Key, session: Session, revoked: User,
                          st': Server, c: Id)
    requires Sound(st) && Fresh(st, pub) && ListsOnce(v) && Owns(st, f, caller) && c in st.files
    requires RowsCommitted(st, f, Build(caller, v, pub, session, revoked), st')
    ensures Stray(st', c) ==> c != f && st.files[c].parent == Some(f)
  {
    assert st'.files[c] == RowAfter(st, f, Build(caller, v, pub, session, revoked), c);
    if st.files[c].parent.Some? {
      assert ClaimSound(st, c);
      assert st'.files[st.files[c].parent.value] ==
             RowAfter(st, f, Build(caller, v, pub, session, revoked), st.files[c].parent.value);
      ClaimIsKept(st, caller, f, v, pub, session, revoked, st', c);
    }
  }

  lemma ParentsStayFolders(st: Server, f: Id, p: Commit, st': Server, c: Id)
    requires ClaimsSound(st) && c in st.files && st.files[c].parent.Some? && RowsCommitted(st, f, p, st')
    ensures st'.files[c].parent == st.files[c].parent
    ensures st.files[c].parent.value in st'.files && st'.files[st.files[c].parent.value].isFolder
  {
    assert ClaimSound(st, c) && st'.files[c] == RowAfter(st, f, p, c);
    assert st'.files[st.files[c].parent.value] == RowAfter(st, f, p, st.files[c].parent.value);
  }

  lemma StraysAreContained(st: Server, caller: User, f: Id, v: View, pub: Key, session: Session, revoked: User,
                           st': Server, c: Id, d: Id)
    requires Sound(st) && Fresh(st, pub) && ListsOnce(v) && Owns(st, f, caller)
    requires RowsCommitted(st, f, Build(caller, v, pub, session, revoked), st')
    requires c in st.files && d in st.files && Stray(st', c) && st'.files[d].parent == Some(c)
    ensures ClaimSound(st', d)
  {
    StraysAreChildren(st, caller, f, v, pub, session, revoked, st', c);
    assert st'.files[d] == RowAfter(st, f, Build(caller, v, pub, session, revoked), d);
    NotOwnGrandparent(st, f, c);
    ClaimIsKept(st, caller, f, v, pub, session, revoked, st', d);
  }

  /** The state an accepted commit leads to, whatever the view, is one in which walking works out. */
  lemma CommitLeavesWalkable(st: Server, caller: User, f: Id, v: View, pub: Key, session: Session, revoked: User,
                             st': Server)
    requires Sound(st) && Fresh(st, pub) && ListsOnce(v) && Owns(st, f, caller)
    requires AclVerdict(st, caller, f, Build(caller, v, pub, session, revoked)) == Ok
    requires IsCommitted(st, f, Build(caller, v, pub, session, revoked), st')
    ensures Walkable(st')
  {
    GrantsLeftSound(st, caller, f, v, pub, session, revoked, st');
    RowsLeftSound(st, caller, f, v, pub, session, revoked, st');
    forall c | c in st'.files && st'.files[c].parent.Some?
      ensures st'.files[c].parent.value in st'.files && st'.files[st'.files[c].parent.value].isFolder
    {
      assert ParentsOf(st')[c] == ParentsOf(st)[c];
      ParentsStayFolders(st, f, Build(caller, v, pub, session, revoked), st', c);
    }
    forall c, d | c in st'.files && d in st'.files && Stray(st', c) && st'.files[d].parent == Some(c)
      ensures ClaimSound(st', d)
    {
      StraysAreContained(st, caller, f, v, pub, session, revoked, st', c, d);
    }
  }

  /**
   What is left of the routes of a user: up to a grant other than the one removed,
   through rows whose claims are kept.
   */
  predicate RouteLeft(st: Server, f: Id, v: View, revoked: User, u: User, g: Id, n: nat)
    requires f in st.files
    decreases n
  {
    && g in st.files
    && if n == 0 then (g, u) in st.grants && (g, u) != (f, revoked)
       else st.files[g].parent.Some? && Kept(st, f, v, g)
            && RouteLeft(st, f, v, revoked, u, st.files[g].parent.value, n - 1)
  }

  ghost predicate KeepsRoute(st: Server, f: Id, v: View, revoked: User, u: User, g: Id)
    requires f in st.files
  {
    exists n: nat :: RouteLeft(st, f, v, revoked, u, g, n)
  }

  /** Places are the same, claims are in order where they were kept, and one grant is gone. */
  ghost predicate RoutesMatch(st: Server, st': Server, f: Id, v: View, revoked: User)
    requires f in st.files
  {
    && st'.files.Keys == st.files.Keys
    && (forall g :: g in st.files ==>
          st'.files[g].parent == st.files[g].parent && (ClaimSound(st', g) <==> Kept(st, f, v, g)))
    && (forall x :: x in st'.grants <==> x in st.grants && x != (f, revoked))
  }

  lemma RowStays(st: Server, f: Id, p: Commit, st': Server, g: Id)
    requires RowsCommitted(st, f, p, st') && g in st.files
    ensures g in st'.files && st'.files[g].parent == st.files[g].parent
  {
    assert st'.files[g] == RowAfter(st, f, p, g);
  }

  lemma CommitMatchesRoutes(st: Server, caller: User, f: Id, v: View, pub: Key, session: Session, revoked: User,
                            st': Server)
    requires Sound(st) && Fresh(st, pub) && ListsOnce(v) && Owns(st, f, caller)
    requires RowsCommitted(st, f, Build(caller, v, pub, session, revoked), st')
    requires Rotated(st, st', f, Keys(session, pub), revoked)
    ensures RoutesMatch(st, st', f, v, revoked)
  {
    forall g | g in st.files
      ensures st'.files[g].parent == st.files[g].parent && (ClaimSound(st', g) <==> Kept(st, f, v, g))
    {
      RowStays(st, f, Build(caller, v, pub, session, revoked), st', g);
      ClaimIsKept(st, caller, f, v, pub, session, revoked, st', g);
    }
  }

  lemma {:induction false} RoutesAfterCommit(st: Server, st': Server, f: Id, v: View, revoked: User, u: User,
                                             g: Id, n: nat)
    requires f in st.files && RoutesMatch(st, st', f, v, revoked)
    ensures Route(st', u, g, n) <==> RouteLeft(st, f, v, revoked, u, g, n)
    decreases n
  {
    if n > 0 && g in st.files && st.files[g].parent.Some? {
      RoutesAfterCommit(st, st', f, v, revoked, u, st.files[g].parent.value, n - 1);
    }
  }

  lemma RoutesAgree(st: Server, st': Server, f: Id, v: View, revoked: User, u: User, g: Id)
    requires f in st.files && RoutesMatch(st, st', f, v, revoked)
    ensures HasRoute(st', u, g) <==> KeepsRoute(st, f, v, revoked, u, g)
  {
    forall n: nat
      ensures Route(st', u, g, n) <==> RouteLeft(st, f, v, revoked, u, g, n)
    {
      RoutesAfterCommit(st, st', f, v, revoked, u, g, n);
    }
  }

  /** After any accepted commit, exactly the users with such a route read a file, remaining and revoked alike. */
  lemma ReadersAfterCommit(st: Server, caller: User, f: Id, v: View, pub: Key, session: Session, revoked: User,
                           u: User, g: Id)
    requires Sound(st) && Fresh(st, pub) && ListsOnce(v) && Owns(st, f, caller)
    requires AclVerdict(st, caller, f, Build(caller, v, pub, session, revoked)) == Ok
    ensures CanRead(ExecuteAll(st, Statements(f, Build(caller, v, pub, session, revoked))), u, g) <==>
            KeepsRoute(st, f, v, revoked, u, g)
  {
    var st' := ExecuteAll(st, Statements(f, Build(caller, v, pub, session, revoked)));
    CommitSucceeds(st, caller, f, v, pub, session, revoked);
    CommitRotates(st, caller, f, v, pub, session, revoked);
    CommitLeavesWalkable(st, caller, f, v, pub, session, revoked, st');
    CommitMatchesRoutes(st, caller, f, v, pub, session, revoked, st');
    RoutesAgree(st, st', f, v, revoked, u, g);
    RouteNeedsRow(st, f, v, revoked, u, g);
    if g in st'.files {
      ReadsByRoute(st', u, g);
    }
  }

  lemma RouteNeedsRow(st: Server, f: Id, v: View, revoked: User, u: User, g: Id)
    requires f in st.files
    ensures KeepsRoute(st, f, v, revoked, u, g) ==> g in st.files
  {
  }

  /** With every claim kept, the routes left are all routes but those that end in the removed grant. */
  ghost predicate AllKept(st: Server, f: Id, v: View)
    requires f in st.files
  {
    forall c :: c in st.files ==> Kept(st, f, v, c)
  }

  lemma {:induction false} RoutesAreClimbs(st: Server, f: Id, v: View, revoked: User, u: User, g: Id, n: nat)
    requires f in st.files && AllKept(st, f, v)
    ensures RouteLeft(st, f, v, revoked, u, g, n) <==>
            exists a :: (a, u) in st.grants && (a, u) != (f, revoked)
                        && Climbs(ParentsOf(st), ParentsOf(st).Keys, g, a, n)
    decreases n
  {
    if n > 0 && g in st.files && st.files[g].parent.Some? {
      var p := st.files[g].parent.value;
      RoutesAreClimbs(st, f, v, revoked, u, p, n - 1);
      assert forall a :: Climbs(ParentsOf(st), ParentsOf(st).Keys, g, a, n) <==>
                         Climbs(ParentsOf(st), ParentsOf(st).Keys, p, a, n - 1);
    }
  }

  /** The user has a grant on the file or above it, the one on `f` for the revoked user not counting. */
  ghost predicate CoveredStill(st: Server, f: Id, revoked: User, u: User, g: Id) {
    exists a :: (a, u) in st.grants && (a, u) != (f, revoked) && Reaches(ParentsOf(st), ParentsOf(st).Keys, g, a)
  }

  lemma KeptRoutesAreCover(st: Server, f: Id, v: View, revoked: User, u: User, g: Id)
    requires f in st.files && AllKept(st, f, v)
    ensures KeepsRoute(st, f, v, revoked, u, g) <==> CoveredStill(st, f, revoked, u, g)
  {
    if KeepsRoute(st, f, v, revoked, u, g) {
      var n: nat :| RouteLeft(st, f, v, revoked, u, g, n);
      RoutesAreClimbs(st, f, v, revoked, u, g, n);
    }
    if CoveredStill(st, f, revoked, u, g) {
      var a :| (a, u) in st.grants && (a, u) != (f, revoked) && Reaches(ParentsOf(st), ParentsOf(st).Keys, g, a);
      var n: nat :| Climbs(ParentsOf(st), ParentsOf(st).Keys, g, a, n);
      RoutesAreClimbs(st, f, v, revoked, u, g, n);
    }
  }

  lemma CoveredStillMeans(st: Server, f: Id, revoked: User, u: User, g: Id)
    ensures u != revoked ==> (CoveredStill(st, f, revoked, u, g) <==> Covered(st, u, g))
    ensures CoveredStill(st, f, revoked, revoked, g) <==> CoveredElsewhere(st, revoked, g, f)
  {
  }

  /**
   Shallow rotation preserves access. After any accepted commit the readers of a file
   are those who keep a route to it. From a current view that is everyone who read it
   before, at any depth, except that the revoked user keeps exactly what another grant
   of theirs covers. Keys change on the folder only, whatever the view.
   */
  lemma FolderRotationPreservesAccess(st: Server, caller: User, f: Id, v: View, pub: Key, session: Session,
                                      revoked: User, u: User, g: Id)
    requires Sound(st) && Fresh(st, pub) && ListsOnce(v)
    requires FolderVerdict(st, caller, f, Build(caller, v, pub, session, revoked)) == Ok
    ensures var st' := CommitFolder(st, caller, f, Build(caller, v, pub, session, revoked)).1;
            && (CanRead(st', u, g) <==> KeepsRoute(st, f, v, revoked, u, g))
            && (ViewCurrent(st, f, v) && u != revoked ==> (CanRead(st', u, g) <==> CanRead(st, u, g)))
            && (ViewCurrent(st, f, v) ==>
                  (CanRead(st', revoked, g) <==> g in st.files && CoveredElsewhere(st, revoked, g, f)))
            && (g in st.files ==>
                  && g in st'.files
                  && TrueKeys(st'.files[g]) == if g == f then Keys(session, pub) else TrueKeys(st.files[g]))
  {
    CommitSucceeds(st, caller, f, v, pub, session, revoked);
    CommitRotates(st, caller, f, v, pub, session, revoked);
    ReadersAfterCommit(st, caller, f, v, pub, session, revoked, u, g);
    ReadersAfterCommit(st, caller, f, v, pub, session, revoked, revoked, g);
    if ViewCurrent(st, f, v) {
      ViewKeepsAll(st, caller, f, v, pub, session, revoked);
      KeptRoutesAreCover(st, f, v, revoked, u, g);
      KeptRoutesAreCover(st, f, v, revoked, revoked, g);
      CoveredStillMeans(st, f, revoked, u, g);
      CanReadIfCovered(st, u, g);
      RouteNeedsRow(st, f, v, revoked, u, g);
      RouteNeedsRow(st, f, v, revoked, revoked, g);
    }
  }

  lemma ViewKeepsAll(st: Server, caller: User, f: Id, v: View, pub: Key, session: Session, revoked: User)
    requires ListsOnce(v) && f in st.files && ViewCurrent(st, f, v)
    requires FolderVerdict(st, caller, f, Build(caller, v, pub, session, revoked)) == Ok
    ensures AllKept(st, f, v)
  {
    ExactSetSeen(st, caller, f, v, pub, session, revoked);
  }

  /** The same for a file rotation, which has only the parent's key to rely on. */
  lemma FileRotationPreservesAccess(st: Server, caller: User, f: Id, v: View, pub: Key, session: Session, revoked: User,
                                    u: User, g: Id)
    requires Sound(st) && Fresh(st, pub) && ListsOnce(v) && v.children == []
    requires FileVerdict(st, caller, f, Build(caller, v, pub, session, revoked)) == Ok
    ensures var st' := CommitFile(st, caller, f, Build(caller, v, pub, session, revoked)).1;
            && (CanRead(st', u, g) <==> KeepsRoute(st, f, v, revoked, u, g))
            && (ParentSeen(st, f, v) && u != revoked ==> (CanRead(st', u, g) <==> CanRead(st, u, g)))
            && (ParentSeen(st, f, v) ==>
                  (CanRead(st', revoked, g) <==> g in st.files && CoveredElsewhere(st, revoked, g, f)))
  {
    var p := Build(caller, v, pub, session, revoked);
    assert p.(rewraps := []) == p;
    CommitSucceeds(st, caller, f, v, pub, session, revoked);
    ReadersAfterCommit(st, caller, f, v, pub, session, revoked, u, g);
    ReadersAfterCommit(st, caller, f, v, pub, session, revoked, revoked, g);
    if ParentSeen(st, f, v) {
      FilesHaveNoChildren(st, f);
      KeptRoutesAreCover(st, f, v, revoked, u, g);
      KeptRoutesAreCover(st, f, v, revoked, revoked, g);
      CoveredStillMeans(st, f, revoked, u, g);
      CanReadIfCovered(st, u, g);
      RouteNeedsRow(st, f, v, revoked, u, g);
      RouteNeedsRow(st, f, v, revoked, revoked, g);
    }
  }

  lemma FilesHaveNoChildren(st: Server, f: Id)
    requires ClaimsSound(st) && f in st.files && !st.files[f].isFolder
    ensures forall c :: c in st.files ==> st.files[c].parent != Some(f)
  {
    forall c | c in st.files
      ensures st.files[c].parent != Some(f)
    {
      assert ClaimSound(st, c);
    }
  }

  // -------------------------------------------------------------------
  // Everything that follows from learned keys and stored wraps
  // -------------------------------------------------------------------

  datatype Secret = Private(key: Key) | SessionKey(session: Session)

  function SecretsOf(k: Keys): set<Secret> {
    {Private(k.priv), SessionKey(k.session)}
  }

  /** Opening every stored wrap whose private key is known yields nothing new. */
  ghost predicate Closed(st: Server, known: set<Secret>) {
    && (forall k :: k in st.grants && Private(st.grants[k].box.recipient) in known ==>
          Private(st.grants[k].box.payload) in known)
    && (forall f :: f in st.files && Private(st.files[f].sessionBox.recipient) in known ==>
          SessionKey(st.files[f].sessionBox.payload) in known)
    && (forall f :: f in st.files && st.files[f].claim.Some?
                    && Private(st.files[f].claim.value.box.recipient) in known ==>
          SecretsOf(st.files[f].claim.value.box.payload) <= known)
  }

  /** In every closed set that contains what was known at the start. */
  ghost predicate Derivable(st: Server, start: set<Secret>, s: Secret) {
    forall known: set<Secret> :: start <= known && Closed(st, known) ==> s in known
  }

  /** The file's private key was learned, or a grant on it opens with a known user key. */
  ghost predicate Entry(st: Server, start: set<Secret>, a: Id) {
    && a in st.files
    && (Private(st.files[a].pub) in start || exists x :: (a, x) in st.grants && Private(UserKey(x)) in start)
  }

  ghost predicate Exposed(st: Server, start: set<Secret>, g: Id) {
    exists a :: Entry(st, start, a) && Reaches(ParentsOf(st), ParentsOf(st).Keys, g, a)
  }

  lemma EntryIsKnown(st: Server, start: set<Secret>, known: set<Secret>, a: Id)
    requires Sound(st) && Entry(st, start, a) && start <= known && Closed(st, known)
    ensures Private(st.files[a].pub) in known
  {
    if Private(st.files[a].pub) !in start {
      var x :| (a, x) in st.grants && Private(UserKey(x)) in start;
      assert GrantSound(st, a, x);
    }
  }

  /** Claims carry knowledge downward, level by level. */
  lemma {:induction false} ClaimsLeadDown(st: Server, known: set<Secret>, g: Id, a: Id, n: nat)
    requires Sound(st) && Closed(st, known) && a in st.files && Private(st.files[a].pub) in known
    requires Climbs(ParentsOf(st), ParentsOf(st).Keys, g, a, n)
    ensures SecretsOf(TrueKeys(st.files[g])) <= known
    decreases n
  {
    assert RowSound(st, g) && ClaimSound(st, g);
    if n > 0 {
      ClaimsLeadDown(st, known, st.files[g].parent.value, a, n - 1);
    }
  }

  /** What was known at the start together with the keys of all exposed files. */
  ghost function Harvest(st: Server, start: set<Secret>): set<Secret> {
    start
    + (set g | g in st.files && Exposed(st, start, g) :: Private(st.files[g].pub))
    + (set g | g in st.files && Exposed(st, start, g) :: SessionKey(st.files[g].sessionBox.payload))
  }

  lemma HarvestedKeyIsExposed(st: Server, start: set<Secret>, g: Id)
    requires Sound(st) && g in st.files && Private(st.files[g].pub) in Harvest(st, start)
    ensures Exposed(st, start, g)
  {
    if Private(st.files[g].pub) in start {
      assert Entry(st, start, g);
      assert Climbs(ParentsOf(st), ParentsOf(st).Keys, g, g, 0);
    }
  }

  lemma HarvestIsClosed(st: Server, start: set<Secret>)
    requires Sound(st)
    ensures start <= Harvest(st, start) && Closed(st, Harvest(st, start))
  {
    var known := Harvest(st, start);
    var par := ParentsOf(st);
    forall k | k in st.grants && Private(st.grants[k].box.recipient) in known
      ensures Private(st.grants[k].box.payload) in known
    {
      var (f, u) := k;
      assert (f, u) == k && GrantSound(st, f, u) && RowSound(st, f);
      assert Private(UserKey(u)) in start by {
        assert forall g :: g in st.files ==> RowSound(st, g) && st.files[g].pub != UserKey(u);
      }
      assert Entry(st, start, f) && Climbs(par, par.Keys, f, f, 0);
    }
    forall f | f in st.files && Private(st.files[f].sessionBox.recipient) in known
      ensures SessionKey(st.files[f].sessionBox.payload) in known
    {
      assert RowSound(st, f);
      HarvestedKeyIsExposed(st, start, f);
    }
    forall f | f in st.files && st.files[f].claim.Some? && Private(st.files[f].claim.value.box.recipient) in known
      ensures SecretsOf(st.files[f].claim.value.box.payload) <= known
    {
      assert ClaimSound(st, f);
      var p := st.files[f].parent.value;
      HarvestedKeyIsExposed(st, start, p);
      var a :| Entry(st, start, a) && Reaches(par, par.Keys, p, a);
      assert Climbs(par, par.Keys, f, p, 1) by { assert Climbs(par, par.Keys, p, p, 0); }
      ReachesTransitive(par, par.Keys, f, p, a);
      assert Exposed(st, start, f);
    }
  }

  /**
   A file's private key follows from learned keys and stored wraps exactly when some
   row on the way from it to its root is a point of entry.
   */
  lemma DerivableExactlyIfExposed(st: Server, start: set<Secret>, g: Id)
    requires Sound(st) && g in st.files
    ensures Derivable(st, start, Private(st.files[g].pub)) <==> Exposed(st, start, g)
  {
    if Exposed(st, start, g) {
      var a :| Entry(st, start, a) && Reaches(ParentsOf(st), ParentsOf(st).Keys, g, a);
      var n: nat :| Climbs(ParentsOf(st), ParentsOf(st).Keys, g, a, n);
      forall known: set<Secret> | start <= known && Closed(st, known)
        ensures Private(st.files[g].pub) in known
      {
        EntryIsKnown(st, start, known, a);
        ClaimsLeadDown(st, known, g, a, n);
      }
    } else if Derivable(st, start, Private(st.files[g].pub)) {
      HarvestIsClosed(st, start);
      assert Private(st.files[g].pub) in Harvest(st, start);
      HarvestedKeyIsExposed(st, start, g);
    }
  }

  /** The same for session keys. */
  lemma SessionDerivableExactly(st: Server, start: set<Secret>, s: Session)
    requires Sound(st)
    ensures Derivable(st, start, SessionKey(s)) <==>
            || SessionKey(s) in start
            || exists g :: g in st.files && Exposed(st, start, g) && st.files[g].sessionBox.payload == s
  {
    if SessionKey(s) !in start {
      if g :| g in st.files && Exposed(st, start, g) && st.files[g].sessionBox.payload == s {
        DerivableExactlyIfExposed(st, start, g);
        forall known: set<Secret> | start <= known && Closed(st, known)
          ensures SessionKey(s) in known
        {
          assert RowSound(st, g) && Private(st.files[g].pub) in known;
        }
      } else if Derivable(st, start, SessionKey(s)) {
        HarvestIsClosed(st, start);
        assert SessionKey(s) in Harvest(st, start);
      }
    }
  }
}
