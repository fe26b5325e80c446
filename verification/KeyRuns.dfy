/**
 Whole runs: every database reachable through the write requests, and a folder
 rotation whose context was read some requests before its commit.
 */
module KeyRuns {
  import opened Common
  import opened Forest
  import opened KeyTree
  import opened KeyWalk
  import opened KeyCommits
  import opened KeyRotation

  datatype Event =
    | Created(file: NewFile)
    | Shared(share: ShareRequest)
    | Unshared(caller: User, f: Id, target: User)
    | Left(caller: User, f: Id)
    | LevelSet(caller: User, f: Id, target: User, level: Level)
    | Finalized(caller: User, f: Id)
    | Flagged(ids: set<Id>, trashed: bool)
    | Moved(move: MoveRequest)
    | VersionPut(version: VersionRequest)
    | FileRotated(caller: User, f: Id, view: View, pub: Key, session: Session, revoked: User)
    | FolderRotated(caller: User, f: Id, view: View, pub: Key, session: Session, revoked: User)

  function Apply(st: Server, e: Event): Server {
    match e
    case Created(n) => Create(st, n)
    case Shared(r) => Share(st, r)
    case Unshared(caller, f, target) => Unshare(st, caller, f, target)
    case Left(caller, f) => Leave(st, caller, f)
    case LevelSet(caller, f, target, level) => SetLevel(st, caller, f, target, level)
    case Finalized(caller, f) => Finalize(st, caller, f)
    case Flagged(ids, trashed) => Flag(st, ids, trashed)
    case Moved(r) => Move(st, r)
    case VersionPut(r) => PutVersion(st, r)
    case FileRotated(caller, f, v, pub, session, revoked) =>
      CommitFile(st, caller, f, Build(caller, v, pub, session, revoked)).1
    case FolderRotated(caller, f, v, pub, session, revoked) =>
      CommitFolder(st, caller, f, Build(caller, v, pub, session, revoked)).1
  }

  /** New keys are new, and lists read from tables have no repeats. */
  ghost predicate WellFormed(st: Server, e: Event) {
    match e
    case Created(n) => Fresh(st, n.pub)
    case FileRotated(_, _, v, pub, _, _) => Fresh(st, pub) && ListsOnce(v) && v.children == []
    case FolderRotated(_, _, v, pub, _, _) => Fresh(st, pub) && ListsOnce(v)
    case _ => true
  }

  /** If the server accepts the request, then what the client relied on is still the case. */
  ghost predicate UpToDate(st: Server, e: Event) {
    match e
    case Created(n) => CreateVerdict(st, n) == Ok ==> ParentCurrent(st, n.parent, n.seenParentPub)
    case Shared(r) => ShareWrites(st, r) ==> r.seenPriv == st.files[r.file].pub
    case Moved(r) => MoveWrites(st, r) ==> MoveCurrent(st, r)
    case VersionPut(r) => VersionLands(st, r) ==> VersionCurrent(st, r)
    case FileRotated(caller, f, v, pub, session, revoked) =>
      FileVerdict(st, caller, f, Build(caller, v, pub, session, revoked)) == Ok ==> ParentSeen(st, f, v)
    case FolderRotated(caller, f, v, pub, session, revoked) =>
      FolderVerdict(st, caller, f, Build(caller, v, pub, session, revoked)) == Ok ==> ViewCurrent(st, f, v)
    case _ => true
  }

  /** One request keeps a sound database sound exactly if it was refused or its client was up to date. */
  lemma ApplyStaysSound(st: Server, e: Event)
    requires Sound(st) && WellFormed(st, e)
    ensures Sound(Apply(st, e)) <==> UpToDate(st, e)
  {
    match e
    case Created(n) =>
      if CreateVerdict(st, n) == Ok { CreateStaysSound(st, n); }
    case Shared(r) => ShareStaysSound(st, r);
    case Unshared(caller, f, target) => BookkeepingStaysSound(st, caller, f, target, Editor);
    case Left(caller, f) => BookkeepingStaysSound(st, caller, f, caller, Editor);
    case LevelSet(caller, f, target, level) => BookkeepingStaysSound(st, caller, f, target, level);
    case Finalized(caller, f) => BookkeepingStaysSound(st, caller, f, caller, Editor);
    case Flagged(ids, trashed) => FlaggedStaysSound(st, ids, trashed);
    case Moved(r) => MoveStaysSound(st, r);
    case VersionPut(r) => VersionStaysSound(st, r);
    case FileRotated(caller, f, v, pub, session, revoked) =>
      var p := Build(caller, v, pub, session, revoked);
      assert p.(rewraps := []) == p;
      if FileVerdict(st, caller, f, p) == Ok {
        FileCommitStaysSound(st, caller, f, v, pub, session, revoked);
      }
    case FolderRotated(caller, f, v, pub, session, revoked) =>
      if FolderVerdict(st, caller, f, Build(caller, v, pub, session, revoked)) == Ok {
        FolderCommitStaysSound(st, caller, f, v, pub, session, revoked);
      }
  }

  function Run(st: Server, es: seq<Event>): Server
    decreases |es|
  {
    if es == [] then st else Run(Apply(st, es[0]), es[1..])
  }

  /** Every request of the run is well formed and made by an up-to-date client. */
  ghost predicate Orderly(st: Server, es: seq<Event>)
    decreases |es|
  {
    es == [] || (WellFormed(st, es[0]) && UpToDate(st, es[0]) && Orderly(Apply(st, es[0]), es[1..]))
  }

  lemma {:induction false} RunStaysSound(st: Server, es: seq<Event>)
    requires Sound(st) && Orderly(st, es)
    ensures Sound(Run(st, es))
    decreases |es|
  {
    if es != [] {
      ApplyStaysSound(st, es[0]);
      RunStaysSound(Apply(st, es[0]), es[1..]);
    }
  }

  const EMPTY := Server(map[], map[])

  lemma EmptyIsSound()
    ensures Sound(EMPTY)
  {
    assert Ranked(ParentsOf(EMPTY), map[]);
  }

  /**
   In every database reachable by such requests, the direct and the inherited branch
   lead to the same keys, and a walk that gets past its first row ends in the true keys.
   */
  lemma ReachableWalksAgree(es: seq<Event>, u: User, path: seq<Id>)
    requires Orderly(EMPTY, es) && path != [] && Linked(Run(EMPTY, es), path)
    ensures var st := Run(EMPTY, es);
            && Walk(st, u, path, None) ==
               (if (path[0], u) in st.grants then Some(TrueKeys(st.files[path[|path| - 1]])) else None)
            && (forall i :: 0 < i < |path| ==>
                  ListNode(st, u, path[i], Some(st.files[path[i - 1]].pub)) == Some(TrueKeys(st.files[path[i]])))
  {
    EmptyIsSound();
    RunStaysSound(EMPTY, es);
    var st := Run(EMPTY, es);
    WalkEndsInTrueKeys(st, u, path, None);
    forall i | 0 < i < |path|
      ensures ListNode(st, u, path[i], Some(st.files[path[i - 1]].pub)) == Some(TrueKeys(st.files[path[i]]))
    {
      BranchesAgree(st, u, path[i], Some(st.files[path[i - 1]].pub));
    }
  }

  // -------------------------------------------------------------------
  // A folder rotation with requests in between
  // -------------------------------------------------------------------

  /**
   What folder-rotate-context returns, with the children's claims opened under the
   folder's key.
   */
  ghost predicate ContextRead(st: Server, f: Id, v: View)
    requires f in st.files
  {
    && ListsOnce(v)
    && ParentSeen(st, f, v)
    && (forall u :: u in UsersOn(st, f) <==> exists i :: 0 <= i < |v.users| && v.users[i].user == u)
    && LevelsRead(st, f, v)
    && (forall c :: c in CompleteChildren(st, f) <==> ListsChild(v, c))
    && (forall i :: 0 <= i < |v.children| && v.children[i].id in st.files ==> OpenedClaim(st, f, v.children[i]))
  }

  /** Collaborators are listed with the level of their grant. */
  predicate LevelsRead(st: Server, f: Id, v: View) {
    forall i :: 0 <= i < |v.users| && (f, v.users[i].user) in st.grants ==>
      v.users[i].level == st.grants[(f, v.users[i].user)].level
  }

  predicate OpenedClaim(st: Server, f: Id, c: SeenChild)
    requires f in st.files && c.id in st.files
  {
    var row := st.files[c.id];
    row.claim.Some? && Unseal(row.claim.value.box, row.claim.value.wrappedBy, st.files[f].pub) == Some(c.keys)
  }

  /** Requests that leave existing keypairs and positions alone: all but moves and rotations. */
  predicate LeavesKeysAlone(e: Event) {
    !e.Moved? && !e.FileRotated? && !e.FolderRotated?
  }

  ghost predicate AllLeaveKeysAlone(es: seq<Event>) {
    forall e :: e in es ==> LeavesKeysAlone(e)
  }

  /** Every row is still there, in its place and under its keypair. */
  ghost predicate KeysKept(ctx: Server, st: Server) {
    forall g :: g in ctx.files ==>
      g in st.files && st.files[g].parent == ctx.files[g].parent && st.files[g].pub == ctx.files[g].pub
  }

  lemma {:induction false} RunKeepsKeys(ctx: Server, st: Server, es: seq<Event>)
    requires KeysKept(ctx, st) && AllLeaveKeysAlone(es)
    ensures KeysKept(ctx, Run(st, es))
    decreases |es|
  {
    if es != [] {
      assert es[0] in es && LeavesKeysAlone(es[0]);
      assert forall e :: e in es[1..] ==> e in es;
      StepKeepsKeys(ctx, st, es[0]);
      RunKeepsKeys(ctx, Apply(st, es[0]), es[1..]);
    }
  }

  lemma StepKeepsKeys(ctx: Server, st: Server, e: Event)
    requires KeysKept(ctx, st) && LeavesKeysAlone(e)
    ensures KeysKept(ctx, Apply(st, e))
  {
  }

  /** The children that the context listed have the session keys it had for them. */
  ghost predicate SessionsKept(ctx: Server, st: Server, f: Id)
    requires KeysKept(ctx, st)
  {
    forall c :: c in CompleteChildren(ctx, f) ==>
      st.files[c].sessionBox.payload == ctx.files[c].sessionBox.payload
  }

  predicate PutsVersionOf(c: Id, e: Event) {
    e.VersionPut? && e.version.file == c
  }

  /** Only a version of its own changes a row's session key. */
  lemma {:induction false} SessionStays(ctx: Server, st: Server, es: seq<Event>, c: Id)
    requires KeysKept(ctx, st) && AllLeaveKeysAlone(es) && c in ctx.files
    requires forall e :: e in es ==> !PutsVersionOf(c, e)
    ensures KeysKept(ctx, Run(st, es))
    ensures Run(st, es).files[c].sessionBox == st.files[c].sessionBox
    decreases |es|
  {
    if es != [] {
      assert es[0] in es && LeavesKeysAlone(es[0]) && !PutsVersionOf(c, es[0]);
      assert forall e :: e in es[1..] ==> e in es;
      StepKeepsKeys(ctx, st, es[0]);
      assert Apply(st, es[0]).files[c].sessionBox == st.files[c].sessionBox;
      SessionStays(ctx, Apply(st, es[0]), es[1..], c);
    }
  }

  /** What was opened from the context is still the case, except for uploads and new versions. */
  lemma ContextStaysCurrent(ctx: Server, st: Server, f: Id, v: View)
    requires ClaimsSound(ctx) && f in ctx.files && ContextRead(ctx, f, v) && KeysKept(ctx, st)
    ensures f in st.files && (ViewCurrent(st, f, v) <==> NothingInFlight(st, f) && SessionsKept(ctx, st, f))
  {
    assert ClaimSound(ctx, f);
    forall i | 0 <= i < |v.children|
      ensures v.children[i].id in CompleteChildren(ctx, f)
      ensures v.children[i].keys == TrueKeys(ctx.files[v.children[i].id])
    {
      assert ListsChild(v, v.children[i].id);
      assert ClaimSound(ctx, v.children[i].id) && OpenedClaim(ctx, f, v.children[i]);
    }
    if ChildrenSeen(st, v) {
      forall c | c in CompleteChildren(ctx, f)
        ensures st.files[c].sessionBox.payload == ctx.files[c].sessionBox.payload
      {
        var i :| 0 <= i < |v.children| && v.children[i].id == c;
      }
    }
  }

  /**
   Stale wraps after a commit, exactly. Whatever is shared, removed, created, uploaded,
   replaced, finished, trashed or restored between reading the context and committing, a
   commit that passes the exact-set checks leaves every grant and every claim openable if
   and only if no upload into the folder is in flight when it runs and no listed child has
   another session key than it had. The owner is always still there.
   */
  lemma NoStaleWrapSurvives(ctx: Server, es: seq<Event>, caller: User, f: Id, v: View,
                            pub: Key, session: Session, revoked: User)
    requires Sound(ctx) && f in ctx.files && ContextRead(ctx, f, v)
    requires AllLeaveKeysAlone(es) && Orderly(ctx, es)
    requires Fresh(Run(ctx, es), pub)
    requires FolderVerdict(Run(ctx, es), caller, f, Build(caller, v, pub, session, revoked)) == Ok
    ensures KeysKept(ctx, Run(ctx, es))
    ensures var st' := CommitFolder(Run(ctx, es), caller, f, Build(caller, v, pub, session, revoked)).1;
            && (Sound(st') <==> NothingInFlight(Run(ctx, es), f) && SessionsKept(ctx, Run(ctx, es), f))
            && f in st'.files && st'.files[f].owner == caller && (f, caller) in st'.grants
  {
    RunStaysSound(ctx, es);
    RunKeepsKeys(ctx, ctx, es);
    ContextStaysCurrent(ctx, Run(ctx, es), f, v);
    FolderCommitStaysSound(Run(ctx, es), caller, f, v, pub, session, revoked);
    OwnerStays(Run(ctx, es), caller, f, v, pub, session, revoked);
  }

  /** So if no version of a listed child lands in between, uploads in flight are all there is to fear. */
  lemma NoStaleWrapWithoutVersions(ctx: Server, es: seq<Event>, caller: User, f: Id, v: View,
                                   pub: Key, session: Session, revoked: User)
    requires Sound(ctx) && f in ctx.files && ContextRead(ctx, f, v)
    requires AllLeaveKeysAlone(es) && Orderly(ctx, es)
    requires forall c, e :: c in CompleteChildren(ctx, f) && e in es ==> !PutsVersionOf(c, e)
    requires Fresh(Run(ctx, es), pub)
    requires FolderVerdict(Run(ctx, es), caller, f, Build(caller, v, pub, session, revoked)) == Ok
    ensures Sound(CommitFolder(Run(ctx, es), caller, f, Build(caller, v, pub, session, revoked)).1) <==>
            NothingInFlight(Run(ctx, es), f)
  {
    NoStaleWrapSurvives(ctx, es, caller, f, v, pub, session, revoked);
    forall c | c in CompleteChildren(ctx, f)
      ensures Run(ctx, es).files[c].sessionBox == ctx.files[c].sessionBox
    {
      SessionStays(ctx, ctx, es, c);
    }
  }

  lemma OwnerStays(st: Server, caller: User, f: Id, v: View, pub: Key, session: Session, revoked: User)
    requires Sound(st) && ListsOnce(v) && Owns(st, f, caller)
    requires AclVerdict(st, caller, f, Build(caller, v, pub, session, revoked)) == Ok
    ensures var st' := ExecuteAll(st, Statements(f, Build(caller, v, pub, session, revoked)));
            f in st'.files && st'.files[f].owner == caller && (f, caller) in st'.grants
    ensures CommitWith(Ok, st, f, Build(caller, v, pub, session, revoked)).1 ==
            ExecuteAll(st, Statements(f, Build(caller, v, pub, session, revoked)))
  {
    var p := Build(caller, v, pub, session, revoked);
    var st' := ExecuteAll(st, Statements(f, p));
    CommitSucceeds(st, caller, f, v, pub, session, revoked);
    assert st'.files[f] == RowAfter(st, f, p, f) && RowSound(st, f);
    GrantsLeftSound(st, caller, f, v, pub, session, revoked, st');
  }

  /** The same for a file, whose client has only the parent's key to rely on. */
  lemma NoStaleWrapSurvivesOnFiles(ctx: Server, es: seq<Event>, caller: User, f: Id, v: View, pub: Key,
                                   session: Session, revoked: User)
    requires Sound(ctx) && f in ctx.files && ParentSeen(ctx, f, v) && ListsOnce(v) && v.children == []
    requires AllLeaveKeysAlone(es) && Orderly(ctx, es)
    requires Fresh(Run(ctx, es), pub)
    requires FileVerdict(Run(ctx, es), caller, f, Build(caller, v, pub, session, revoked)) == Ok
    ensures Sound(CommitFile(Run(ctx, es), caller, f, Build(caller, v, pub, session, revoked)).1)
  {
    RunStaysSound(ctx, es);
    RunKeepsKeys(ctx, ctx, es);
    assert ClaimSound(ctx, f);
    FileCommitStaysSound(Run(ctx, es), caller, f, v, pub, session, revoked);
  }

  // -------------------------------------------------------------------
  // A rotation in between
  // -------------------------------------------------------------------

  predicate Rotates(e: Event, c: Id) {
    (e.FileRotated? || e.FolderRotated?) && e.f == c
  }

  predicate RotationAccepted(st: Server, e: Event)
    requires e.FileRotated? || e.FolderRotated?
  {
    var p := Build(e.caller, e.view, e.pub, e.session, e.revoked);
    (if e.FileRotated? then FileVerdict(st, e.caller, e.f, p) else FolderVerdict(st, e.caller, e.f, p)) == Ok
  }

  /**
   Whenever a listed child, be it a file or a folder, is rotated between reading the
   context and committing, an accepted commit puts it back under keys it no longer has:
   its id is still in the set.
   */
  lemma ChildRotatedMeanwhileGoesStale(ctx: Server, f: Id, v: View, c: Id, e: Event,
                                       caller: User, pub: Key, session: Session, revoked: User)
    requires Sound(ctx) && f in ctx.files && ContextRead(ctx, f, v) && ListsChild(v, c)
    requires Rotates(e, c) && RotationAccepted(ctx, e) && WellFormed(ctx, e) && UpToDate(ctx, e)
    requires Fresh(Apply(ctx, e), pub)
    requires FolderVerdict(Apply(ctx, e), caller, f, Build(caller, v, pub, session, revoked)) == Ok
    ensures Sound(Apply(ctx, e))
    ensures !Sound(CommitFolder(Apply(ctx, e), caller, f, Build(caller, v, pub, session, revoked)).1)
  {
    ApplyStaysSound(ctx, e);
    RotatedRowHasNewKey(ctx, e);
    ListedUnderOldKey(ctx, f, v, c);
    FolderCommitStaysSound(Apply(ctx, e), caller, f, v, pub, session, revoked);
  }

  lemma ListedUnderOldKey(ctx: Server, f: Id, v: View, c: Id)
    requires ClaimsSound(ctx) && f in ctx.files && ContextRead(ctx, f, v) && ListsChild(v, c)
    ensures c in ctx.files
    ensures exists i :: 0 <= i < |v.children| && v.children[i].id == c && v.children[i].keys == TrueKeys(ctx.files[c])
  {
    var i :| 0 <= i < |v.children| && v.children[i].id == c;
    assert ListsChild(v, v.children[i].id);
    assert ClaimSound(ctx, c) && OpenedClaim(ctx, f, v.children[i]);
  }

  lemma RotatedRowHasNewKey(st: Server, e: Event)
    requires Sound(st) && (e.FileRotated? || e.FolderRotated?) && RotationAccepted(st, e) && WellFormed(st, e)
    ensures e.f in Apply(st, e).files && Apply(st, e).files[e.f].pub == e.pub != st.files[e.f].pub
  {
    var p := Build(e.caller, e.view, e.pub, e.session, e.revoked);
    assert e.FileRotated? ==> p.(rewraps := []) == p;
    CommitSucceeds(st, e.caller, e.f, e.view, e.pub, e.session, e.revoked);
    assert ExecuteAll(st, Statements(e.f, p)).files[e.f] == RowAfter(st, e.f, p, e.f);
  }

  // -------------------------------------------------------------------
  // A new version in between
  // -------------------------------------------------------------------

  /** A version with its own session key that lands on a listed child in between is overtaken in the same way. */
  lemma ChildReplacedMeanwhileGoesStale(ctx: Server, f: Id, v: View, r: VersionRequest,
                                        caller: User, pub: Key, session: Session, revoked: User)
    requires Sound(ctx) && f in ctx.files && ContextRead(ctx, f, v) && ListsChild(v, r.file)
    requires VersionLands(ctx, r) && VersionCurrent(ctx, r) && r.session != ctx.files[r.file].sessionBox.payload
    requires Fresh(PutVersion(ctx, r), pub)
    requires FolderVerdict(PutVersion(ctx, r), caller, f, Build(caller, v, pub, session, revoked)) == Ok
    ensures Sound(PutVersion(ctx, r))
    ensures !Sound(CommitFolder(PutVersion(ctx, r), caller, f, Build(caller, v, pub, session, revoked)).1)
  {
    VersionStaysSound(ctx, r);
    ListedUnderOldKey(ctx, f, v, r.file);
    FolderCommitStaysSound(PutVersion(ctx, r), caller, f, v, pub, session, revoked);
  }

  /** And a version with a claim, begun before the folder's rotation and landing after it, puts the old claim back. */
  lemma VersionBegunBeforeGoesStale(st: Server, f: Id, v: View, r: VersionRequest,
                                    caller: User, pub: Key, session: Session, revoked: User)
    requires Sound(st) && Fresh(st, pub) && ListsOnce(v)
    requires VersionLands(st, r) && VersionCurrent(st, r)
    requires st.files[r.file].parent == Some(f) && r.seenParentPub.Some?
    requires FolderVerdict(st, caller, f, Build(caller, v, pub, session, revoked)) == Ok && ViewCurrent(st, f, v)
    ensures var st' := CommitFolder(st, caller, f, Build(caller, v, pub, session, revoked)).1;
            Sound(st') && VersionLands(st', r) && !Sound(PutVersion(st', r))
  {
    var p := Build(caller, v, pub, session, revoked);
    var st' := ExecuteAll(st, Statements(f, p));
    FolderCommitStaysSound(st, caller, f, v, pub, session, revoked);
    CommitSucceeds(st, caller, f, v, pub, session, revoked);
    NotOwnParent(st, f);
    StillLands(st, f, p, st', r);
    VersionStaysSound(st', r);
  }

  /** A commit on its parent refuses no version of a child. */
  lemma StillLands(st: Server, f: Id, p: Commit, st': Server, r: VersionRequest)
    requires VersionLands(st, r) && st.files[r.file].parent == Some(f) && r.file != f && f in st.files
    requires IsCommitted(st, f, p, st')
    ensures VersionLands(st', r) && st'.files[r.file].parent == Some(f) && st'.files[f].pub == p.pub
  {
    assert st'.files[f] == RowAfter(st, f, p, f) && st'.files[r.file] == RowAfter(st, f, p, r.file);
    assert GrantCommitted(st, f, p, st', (r.file, r.caller));
  }
}
