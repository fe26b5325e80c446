/**
 Concrete databases and accepted requests for what the exact conditions exclude.
 */
module KeyExamples {
  import opened Common
  import opened Forest
  import opened KeyTree
  import opened KeyWalk
  import opened KeyCommits
  import opened KeyRotation
  import opened KeyAccess
  import opened KeyCutOff
  import opened KeyRuns
  import opened KeyFileRoute

  /**
   Folder 0 of user 0, shared with user 1, with child 1, shared with user 2; the child's
   upload may still be running.
   */
  function Example(childComplete: bool): Server {
    var folder := FileRow(0, None, true, true, false, None, HierKey(0), Sealed(0, UserKey(0), HierKey(0)), 0, None);
    var child := FileRow(0, Some(0), false, childComplete, false, None,
                         HierKey(1), Sealed(1, UserKey(0), HierKey(1)), 1,
                         Some(SealKeys(Keys(1, HierKey(1)), 0, HierKey(0))));
    Server(map[0 := folder, 1 := child],
           map[(0, 0) := SealGrant(HierKey(0), 0, 0, Owner),
               (0, 1) := SealGrant(HierKey(0), 0, 1, Editor),
               (1, 0) := SealGrant(HierKey(1), 0, 0, Owner),
               (1, 2) := SealGrant(HierKey(1), 0, 2, Editor)])
  }

  lemma ExampleRowsSound(childComplete: bool)
    ensures var st := Example(childComplete); KeysDistinct(st) && RowsSound(st) && ClaimsSound(st)
  {
    var st := Example(childComplete);
    assert st.files.Keys == {0, 1};
    assert RowSound(st, 0) && RowSound(st, 1);
    assert ClaimSound(st, 0) && ClaimSound(st, 1);
  }

  lemma ExampleGrantsSound(childComplete: bool)
    ensures GrantsSound(Example(childComplete))
  {
  }

  lemma ExampleIsSound(childComplete: bool)
    ensures Sound(Example(childComplete))
  {
    ExampleRowsSound(childComplete);
    ExampleGrantsSound(childComplete);
    assert Ranked(ParentsOf(Example(childComplete)), map[0 := 0, 1 := 1]);
  }

  lemma ExampleUsers(childComplete: bool)
    ensures UsersOn(Example(childComplete), 0) == {0, 1} && UsersOn(Example(childComplete), 1) == {0, 2}
    ensures CompleteChildren(Example(childComplete), 0) == if childComplete then {1} else {}
  {
    var st := Example(childComplete);
    assert (0, 0) in st.grants && (0, 1) in st.grants && (1, 0) in st.grants && (1, 2) in st.grants;
  }

  /** The collaborators of a row shared with one user, to be revoked. */
  function Both(u: User): seq<SeenUser> {
    [SeenUser(0, Owner), SeenUser(u, Editor)]
  }

  /** The checks on the collaborator set pass for user 0 revoking the other one. */
  lemma AclPasses(st: Server, f: Id, v: View, pub: Key, session: Session, u: User)
    requires u != 0 && v.users == Both(u) && UsersOn(st, f) == {0, u}
    ensures AclVerdict(st, 0, f, Build(0, v, pub, session, u)) == Ok
  {
    var p := Build(0, v, pub, session, u);
    assert v.users[1..] == [SeenUser(u, Editor)] && v.users[1..][1..] == [];
    assert BuildGrants(0, pub, v.users[1..], u) == [];
    assert p.remaining == [NewGrant(0, SealGrant(pub, 0, 0, Owner))];
    assert p.remaining[0].user in RemainingUsers(p);
    assert RemainingUsers(p) == {0};
  }

  // -------------------------------------------------------------------
  // An upload in flight
  // -------------------------------------------------------------------

  const EMPTY_VIEW := View(None, Both(1), [])

  lemma EmptyViewPassesAcl()
    ensures AclVerdict(Example(false), 0, 0, Build(0, EMPTY_VIEW, HierKey(5), 5, 1)) == Ok
  {
    ExampleUsers(false);
    AclPasses(Example(false), 0, EMPTY_VIEW, HierKey(5), 5, 1);
  }

  lemma EmptyViewIsAccepted()
    ensures FolderVerdict(Example(false), 0, 0, Build(0, EMPTY_VIEW, HierKey(5), 5, 1)) == Ok
  {
    ExampleUsers(false);
    EmptyViewPassesAcl();
    assert Owns(Example(false), 0, 0) && Example(false).files[0].isFolder;
    assert RewrapIds(Build(0, EMPTY_VIEW, HierKey(5), 5, 1)) == {};
  }

  lemma EmptyViewIsRead()
    ensures ContextRead(Example(false), 0, EMPTY_VIEW)
  {
    ExampleUsers(false);
    assert EMPTY_VIEW.users[0].user == 0 && EMPTY_VIEW.users[1].user == 1;
  }

  lemma ExampleFresh(childComplete: bool, n: nat)
    requires n > 1
    ensures Fresh(Example(childComplete), HierKey(n))
  {
  }

  /**
   With an upload in flight the commit goes wrong even when nothing happens in
   between: the context does not list the row, the checks do not miss it, and its
   claim is left under the discarded key.
   */
  lemma UploadInFlightGoesStale()
    ensures Sound(Example(false)) && ContextRead(Example(false), 0, EMPTY_VIEW)
    ensures CommitFolder(Example(false), 0, 0, Build(0, EMPTY_VIEW, HierKey(5), 5, 1)).0 == Ok
    ensures !Sound(CommitFolder(Example(false), 0, 0, Build(0, EMPTY_VIEW, HierKey(5), 5, 1)).1)
  {
    ExampleIsSound(false);
    EmptyViewIsRead();
    EmptyViewIsAccepted();
    ExampleFresh(false, 5);
    FolderCommitStaysSound(Example(false), 0, 0, EMPTY_VIEW, HierKey(5), 5, 1);
    assert Example(false).files[1].parent == Some(0) && !Example(false).files[1].uploadComplete;
  }

  /** What user 1 has learned: the own key and, from the grant, the folder's. */
  const LEARNED := {Private(UserKey(1)), Private(HierKey(0))}

  lemma NothingLearnedBetween()
    ensures NothingAbove(Example(false), LEARNED, 0)
    ensures !Entry(Example(false), LEARNED, 1)
  {
    var st := Example(false);
    forall a | a != 0 && a in st.files
      ensures !Reaches(ParentsOf(st), ParentsOf(st).Keys, 0, a)
    {
      forall n: nat
        ensures !Climbs(ParentsOf(st), ParentsOf(st).Keys, 0, a, n)
      {
        assert ParentsOf(st)[0] == None;
      }
    }
    assert forall x :: (1, x) in st.grants ==> x == 0 || x == 2;
  }

  /**
   So a file the revoked user never opened is not out of reach: the upload's claim still
   lies under the old folder key.
   */
  lemma UploadInFlightStaysInReach()
    ensures NothingAbove(Example(false), LEARNED, 0) && !Entry(Example(false), LEARNED, 1)
    ensures FolderVerdict(Example(false), 0, 0, Build(0, EMPTY_VIEW, HierKey(5), 5, 1)) == Ok
    ensures Derivable(CommitFolder(Example(false), 0, 0, Build(0, EMPTY_VIEW, HierKey(5), 5, 1)).1, LEARNED,
                      Private(Example(false).files[1].pub))
  {
    ExampleIsSound(false);
    EmptyViewIsAccepted();
    ExampleFresh(false, 5);
    assert ListsOnce(EMPTY_VIEW);
    NothingLearnedBetween();
    InFlightStaysInReach(Example(false), 0, 0, EMPTY_VIEW, HierKey(5), 5, 1, LEARNED, 1);
  }

  // -------------------------------------------------------------------
  // A parent's key from an old cache
  // -------------------------------------------------------------------

  /** Folder 1 of user 0 in folder 0, and shared with user 1. */
  function Nested(): Server {
    var outer := FileRow(0, None, true, true, false, None, HierKey(0), Sealed(0, UserKey(0), HierKey(0)), 0, None);
    var inner := FileRow(0, Some(0), true, true, false, None, HierKey(1), Sealed(1, UserKey(0), HierKey(1)), 1,
                         Some(SealKeys(Keys(1, HierKey(1)), 0, HierKey(0))));
    Server(map[0 := outer, 1 := inner],
           map[(0, 0) := SealGrant(HierKey(0), 0, 0, Owner),
               (1, 0) := SealGrant(HierKey(1), 0, 0, Owner),
               (1, 1) := SealGrant(HierKey(1), 0, 1, Editor)])
  }

  lemma NestedRowsSound()
    ensures var st := Nested(); KeysDistinct(st) && RowsSound(st) && ClaimsSound(st) && Fresh(st, HierKey(5))
  {
    var st := Nested();
    assert st.files.Keys == {0, 1};
    assert RowSound(st, 0) && RowSound(st, 1);
    assert ClaimSound(st, 0) && ClaimSound(st, 1);
  }

  lemma NestedGrantsSound()
    ensures GrantsSound(Nested())
  {
  }

  lemma NestedIsSound()
    ensures Sound(Nested())
  {
    NestedRowsSound();
    NestedGrantsSound();
    assert Ranked(ParentsOf(Nested()), map[0 := 0, 1 := 1]);
  }

  lemma NestedUsers()
    ensures UsersOn(Nested(), 1) == {0, 1} && CompleteChildren(Nested(), 1) == {}
  {
    assert (1, 0) in Nested().grants && (1, 1) in Nested().grants;
  }

  /** HierKey(4) is what folder 0 had before it was rotated away from user 1. */
  const CACHED_VIEW := View(Some(HierKey(4)), Both(1), [])

  const REMEMBERED := {Private(UserKey(1)), Private(HierKey(4))}

  lemma NothingRememberedAbove()
    ensures NothingAbove(Nested(), REMEMBERED, 1)
  {
    assert forall x :: (0, x) in Nested().grants ==> x == 0;
  }

  lemma CachedViewPassesAcl()
    ensures AclVerdict(Nested(), 0, 1, Build(0, CACHED_VIEW, HierKey(5), 5, 1)) == Ok
  {
    NestedUsers();
    AclPasses(Nested(), 1, CACHED_VIEW, HierKey(5), 5, 1);
  }

  lemma CachedViewIsAccepted()
    ensures ListsOnce(CACHED_VIEW) && FolderVerdict(Nested(), 0, 1, Build(0, CACHED_VIEW, HierKey(5), 5, 1)) == Ok
  {
    NestedUsers();
    CachedViewPassesAcl();
    assert Owns(Nested(), 1, 0) && Nested().files[1].isFolder;
    assert RewrapIds(Build(0, CACHED_VIEW, HierKey(5), 5, 1)) == {};
  }

  /**
   A commit that claims the new folder key under a parent's key out of an old cache is
   accepted, and gives the new key to whoever learned that old one.
   */
  lemma CachedParentKeyGivesAway()
    ensures Sound(Nested()) && NothingAbove(Nested(), REMEMBERED, 1)
    ensures FolderVerdict(Nested(), 0, 1, Build(0, CACHED_VIEW, HierKey(5), 5, 1)) == Ok
    ensures Derivable(CommitFolder(Nested(), 0, 1, Build(0, CACHED_VIEW, HierKey(5), 5, 1)).1, REMEMBERED,
                      Private(HierKey(5)))
  {
    NestedIsSound();
    NestedRowsSound();
    NothingRememberedAbove();
    CachedViewIsAccepted();
    LearnedParentKeyGivesAway(Nested(), 0, 1, CACHED_VIEW, HierKey(5), 5, 1, REMEMBERED);
  }

  // -------------------------------------------------------------------
  // A child rotated meanwhile
  // -------------------------------------------------------------------

  const READ_VIEW := View(None, Both(1), [SeenChild(1, Keys(1, HierKey(1)))])
  const CHILD_VIEW := View(Some(HierKey(0)), Both(2), [])
  const CHILD_ROTATION := FileRotated(0, 1, CHILD_VIEW, HierKey(3), 3, 2)

  lemma ReadViewIsRead()
    ensures ContextRead(Example(true), 0, READ_VIEW) && ListsChild(READ_VIEW, 1)
    ensures RewrapIds(Build(0, READ_VIEW, HierKey(5), 5, 1)) == {1}
  {
    ExampleUsers(true);
    assert READ_VIEW.users[0].user == 0 && READ_VIEW.users[1].user == 1 && READ_VIEW.children[0].id == 1;
    var p := Build(0, READ_VIEW, HierKey(5), 5, 1);
    assert p.rewraps[0].id == 1 && p.rewraps[0].id in RewrapIds(p);
  }

  lemma ChildRotationIsAccepted()
    ensures WellFormed(Example(true), CHILD_ROTATION) && UpToDate(Example(true), CHILD_ROTATION)
    ensures FileVerdict(Example(true), 0, 1, Build(0, CHILD_VIEW, HierKey(3), 3, 2)) == Ok
  {
    ExampleUsers(true);
    ExampleFresh(true, 3);
    AclPasses(Example(true), 1, CHILD_VIEW, HierKey(3), 3, 2);
  }

  lemma AfterChildRotation()
    ensures var st := Apply(Example(true), CHILD_ROTATION);
            && UsersOn(st, 0) == {0, 1} && CompleteChildren(st, 0) == {1} && Fresh(st, HierKey(5))
            && Owns(st, 0, 0) && st.files[0].isFolder
  {
    var st, p := Example(true), Build(0, CHILD_VIEW, HierKey(3), 3, 2);
    ExampleIsSound(true);
    ExampleUsers(true);
    ExampleFresh(true, 5);
    ChildRotationIsAccepted();
    assert p.(rewraps := []) == p;
    CommitSucceeds(st, 0, 1, CHILD_VIEW, HierKey(3), 3, 2);
    ElsewhereUnchanged(st, 1, p, ExecuteAll(st, Statements(1, p)), 0);
    StaysFresh(st, 1, p, ExecuteAll(st, Statements(1, p)), HierKey(5));
  }

  lemma FolderCommitIsAccepted()
    ensures FolderVerdict(Apply(Example(true), CHILD_ROTATION), 0, 0, Build(0, READ_VIEW, HierKey(5), 5, 1)) == Ok
  {
    AfterChildRotation();
    ReadViewIsRead();
    AclPasses(Apply(Example(true), CHILD_ROTATION), 0, READ_VIEW, HierKey(5), 5, 1);
  }

  lemma OneEvent(st: Server, e: Event)
    ensures Run(st, [e]) == Apply(st, e)
  {
    assert [e][1..] == [] && Run(Apply(st, e), []) == Apply(st, e);
  }

  /** A run: read the context, rotate the child, commit the folder. All accepted, and the child's claim is stale. */
  lemma ChildRotationIsOvertaken()
    ensures Sound(Example(true)) && ContextRead(Example(true), 0, READ_VIEW)
    ensures FileVerdict(Example(true), 0, 1, Build(0, CHILD_VIEW, HierKey(3), 3, 2)) == Ok
    ensures var st := Run(Example(true), [CHILD_ROTATION]);
            && Sound(st)
            && FolderVerdict(st, 0, 0, Build(0, READ_VIEW, HierKey(5), 5, 1)) == Ok
            && !Sound(CommitFolder(st, 0, 0, Build(0, READ_VIEW, HierKey(5), 5, 1)).1)
  {
    ExampleIsSound(true);
    ReadViewIsRead();
    ChildRotationIsAccepted();
    AfterChildRotation();
    FolderCommitIsAccepted();
    OneEvent(Example(true), CHILD_ROTATION);
    ChildRotatedMeanwhileGoesStale(Example(true), 0, READ_VIEW, 1, CHILD_ROTATION, 0, HierKey(5), 5, 1);
  }

  // -------------------------------------------------------------------
  // A chunk row without a version
  // -------------------------------------------------------------------

  const OLD_CHUNK := ChunkRow(1, None, 0, StorageKey(0, 1, "1", 0))
  const NEW_CHUNK := NewChunk(0, StorageKey(0, 1, "a", 0))

  /** File 1 of the example, whose one chunk row names no version. */
  function StoreOfOldFile(): Store {
    Store(Example(true), map[], {OLD_CHUNK}, map[1 := 1])
  }

  function RotateOldFile(): Request {
    Request(0, 1, Build(0, CHILD_VIEW, HierKey(3), 3, 2), [NEW_CHUNK], {NEW_CHUNK.key}, Ok)
  }

  lemma OldFileIsBound()
    ensures AllBound(0, 1, KeysOf(StoreOfOldFile(), 1), [NEW_CHUNK]) && AllUploaded(RotateOldFile())
  {
    assert KeysOf(StoreOfOldFile(), 1) == {OLD_CHUNK.key};
  }

  lemma OldFileIsInOrder()
    ensures InOrder(StoreOfOldFile(), RotateOldFile(), NewVersion(9, 1))
  {
  }

  lemma OldFileIsAccepted()
    ensures KeyFileRoute.Verdict(StoreOfOldFile(), RotateOldFile()) == Ok
  {
    ChildRotationIsAccepted();
    OldFileIsBound();
    AllChecksPass(StoreOfOldFile(), RotateOldFile());
  }

  lemma AllChecksPass(st: Store, r: Request)
    requires r.chunks != [] && FileVerdict(st.server, r.caller, r.file, r.commit) == Ok
    requires AllBound(r.caller, r.file, KeysOf(st, r.file), r.chunks) && AllUploaded(r) && r.quota == Ok
    ensures KeyFileRoute.Verdict(st, r) == Ok
  {
  }

  lemma OldFileRepeatsNobody()
    ensures !RepeatsUser(RotateOldFile().commit)
  {
    ExampleIsSound(true);
    ChildRotationIsAccepted();
    CommitSucceeds(Example(true), 0, 1, CHILD_VIEW, HierKey(3), 3, 2);
  }

  lemma OldFileChunks()
    ensures Unversioned(StoreOfOldFile(), 1) == {OLD_CHUNK} == Untouched(StoreOfOldFile(), 1)
    ensures NewKeys(RotateOldFile()) == {NEW_CHUNK.key}
    ensures RowsFor(1, NewVersion(9, 1), [NEW_CHUNK]) == {ChunkRow(1, Some(9), 0, NEW_CHUNK.key)}
  {
    assert [NEW_CHUNK][0] == NEW_CHUNK;
    assert NEW_CHUNK.key in NewKeys(RotateOldFile());
  }

  /** An accepted rotation of the file, after which its old chunk row is still there next to the new one. */
  lemma UnversionedChunkStays()
    ensures KeyFileRoute.Verdict(StoreOfOldFile(), RotateOldFile()) == Ok
    ensures var (outcome, st') := CommitWhole(StoreOfOldFile(), RotateOldFile(), NewVersion(9, 1));
            && outcome == Ok
            && st'.chunks == {OLD_CHUNK, ChunkRow(1, Some(9), 0, NEW_CHUNK.key)}
            && KeysOf(st', 1) == {OLD_CHUNK.key, NEW_CHUNK.key}
  {
    OldFileIsInOrder();
    OldFileIsAccepted();
    OldFileRepeatsNobody();
    OldFileChunks();
    WholeEffect(StoreOfOldFile(), RotateOldFile(), NewVersion(9, 1));
  }

  // -------------------------------------------------------------------
  // A new version meanwhile
  // -------------------------------------------------------------------

  /** A new version of file 1, made by a client that has the keys of the file and of folder 0 as they were. */
  const VERSION := VersionRequest(0, 1, HierKey(1), 7, Some(HierKey(0)), false)

  lemma VersionIsUpToDate()
    ensures VersionLands(Example(true), VERSION) && VersionCurrent(Example(true), VERSION)
  {
  }

  /** A version changes nothing that a folder commit is checked against. */
  lemma VersionChangesNoVerdict(st: Server, r: VersionRequest, caller: User, f: Id, p: Commit)
    ensures FolderVerdict(PutVersion(st, r), caller, f, p) == FolderVerdict(st, caller, f, p)
    ensures Fresh(st, p.pub) ==> Fresh(PutVersion(st, r), p.pub)
  {
    assert UsersOn(PutVersion(st, r), f) == UsersOn(st, f);
    assert CompleteChildren(PutVersion(st, r), f) == CompleteChildren(st, f);
  }

  lemma ReadViewIsAccepted()
    ensures FolderVerdict(Example(true), 0, 0, Build(0, READ_VIEW, HierKey(5), 5, 1)) == Ok
    ensures ListsOnce(READ_VIEW) && ViewCurrent(Example(true), 0, READ_VIEW)
  {
    ExampleUsers(true);
    ReadViewIsRead();
    AclPasses(Example(true), 0, READ_VIEW, HierKey(5), 5, 1);
  }

  /** The folder commit that comes after it puts the file back under the session key it had before. */
  lemma VersionIsOvertaken()
    ensures ContextRead(Example(true), 0, READ_VIEW) && VersionLands(Example(true), VERSION)
    ensures var st := PutVersion(Example(true), VERSION);
            && Sound(st)
            && FolderVerdict(st, 0, 0, Build(0, READ_VIEW, HierKey(5), 5, 1)) == Ok
            && !Sound(CommitFolder(st, 0, 0, Build(0, READ_VIEW, HierKey(5), 5, 1)).1)
  {
    ExampleIsSound(true);
    ReadViewIsRead();
    VersionIsUpToDate();
    ReadViewIsAccepted();
    ExampleFresh(true, 5);
    VersionChangesNoVerdict(Example(true), VERSION, 0, 0, Build(0, READ_VIEW, HierKey(5), 5, 1));
    ChildReplacedMeanwhileGoesStale(Example(true), 0, READ_VIEW, VERSION, 0, HierKey(5), 5, 1);
  }

  /** And the other way round: the version is begun before the rotation of the folder and finished after it. */
  lemma VersionComesTooLate()
    ensures FolderVerdict(Example(true), 0, 0, Build(0, READ_VIEW, HierKey(5), 5, 1)) == Ok
    ensures var st := CommitFolder(Example(true), 0, 0, Build(0, READ_VIEW, HierKey(5), 5, 1)).1;
            Sound(st) && VersionLands(st, VERSION) && !Sound(PutVersion(st, VERSION))
  {
    ExampleIsSound(true);
    ExampleFresh(true, 5);
    ReadViewIsAccepted();
    VersionIsUpToDate();
    VersionBegunBeforeGoesStale(Example(true), 0, READ_VIEW, VERSION, 0, HierKey(5), 5, 1);
  }

  // -------------------------------------------------------------------
  // A trashed folder in between
  // -------------------------------------------------------------------

  /**
   Folder 0 of user 0, shared with user 2; in it the trashed folder 1 of user 0, and in
   that the live file 2 of user 1, which the delete of folder 1 did not stamp.
   */
  function BelowTrash(): Server {
    var outer := FileRow(0, None, true, true, false, None, HierKey(0), Sealed(0, UserKey(0), HierKey(0)), 0, None);
    var inner := FileRow(0, Some(0), true, true, true, None, HierKey(1), Sealed(1, UserKey(0), HierKey(1)), 1,
                         Some(SealKeys(Keys(1, HierKey(1)), 0, HierKey(0))));
    var file := FileRow(1, Some(1), false, true, false, None, HierKey(2), Sealed(2, UserKey(1), HierKey(2)), 2,
                        Some(SealKeys(Keys(2, HierKey(2)), 1, HierKey(1))));
    Server(map[0 := outer, 1 := inner, 2 := file],
           map[(0, 0) := SealGrant(HierKey(0), 0, 0, Owner),
               (0, 2) := SealGrant(HierKey(0), 0, 2, Editor),
               (1, 0) := SealGrant(HierKey(1), 0, 0, Owner),
               (2, 1) := SealGrant(HierKey(2), 1, 1, Owner)])
  }

  lemma BelowTrashRowsSound()
    ensures KeysDistinct(BelowTrash()) && RowsSound(BelowTrash())
  {
    var st := BelowTrash();
    assert RowSound(st, 0) && RowSound(st, 1) && RowSound(st, 2);
  }

  lemma BelowTrashClaimsSound()
    ensures ClaimsSound(BelowTrash())
  {
    var st := BelowTrash();
    assert ClaimSound(st, 0) && ClaimSound(st, 1) && ClaimSound(st, 2);
  }

  lemma BelowTrashIsAcyclic()
    ensures Acyclic(ParentsOf(BelowTrash()))
  {
    assert Ranked(ParentsOf(BelowTrash()), map[0 := 0, 1 := 1, 2 := 2]);
  }

  lemma BelowTrashGrantsSound()
    ensures GrantsSound(BelowTrash())
  {
  }

  lemma BelowTrashIsCovered()
    ensures Covered(BelowTrash(), 2, 2)
  {
    var par := ParentsOf(BelowTrash());
    assert Climbs(par, par.Keys, 0, 0, 0);
    assert Climbs(par, par.Keys, 1, 0, 1);
    assert Climbs(par, par.Keys, 2, 0, 2);
  }

  lemma BelowTrashIsRefused()
    ensures Visible(BelowTrash().files[2]) && ResolveUp(BelowTrash(), 2, 2) == None
  {
    assert OpenFromAbove(BelowTrash(), 2, 2) == None;
  }

  /** A grant on folder 0 covers the file, and every claim opens, but the download is refused. */
  lemma TrashedFolderCutsTheWalkUp()
    ensures Sound(BelowTrash()) && Visible(BelowTrash().files[2])
    ensures Reads(BelowTrash(), 2, 2, TrueKeys(BelowTrash().files[2]))
    ensures ResolveUp(BelowTrash(), 2, 2) == None
  {
    BelowTrashRowsSound();
    BelowTrashClaimsSound();
    BelowTrashIsAcyclic();
    BelowTrashGrantsSound();
    BelowTrashIsCovered();
    BelowTrashIsRefused();
    ReadsExactlyWhatIsCovered(BelowTrash(), 2, 2, TrueKeys(BelowTrash().files[2]));
  }

  // -------------------------------------------------------------------
  // A loop
  // -------------------------------------------------------------------

  /** An upload of user 0 that has not been finished. */
  function Unfinished(): Server {
    Server(map[0 := FileRow(0, None, false, false, false, None,
                            HierKey(0), Sealed(0, UserKey(0), HierKey(0)), 0, None)],
           map[(0, 0) := SealGrant(HierKey(0), 0, 0, Owner)])
  }

  const FOLDER_INSIDE := NewFile(1, 0, Some(0), true, true, HierKey(1), 1, HierKey(0))
  const MOVE_INSIDE := MoveRequest(0, 0, Some(1), Keys(0, HierKey(0)), HierKey(1))

  /** Its owner may create a folder below it and may then move it into that folder. */
  lemma TwoRequestsCloseALoop()
    ensures Sound(Unfinished()) && CreateVerdict(Unfinished(), FOLDER_INSIDE) == Ok
    ensures var st := Create(Unfinished(), FOLDER_INSIDE);
            MoveVerdict(st, MOVE_INSIDE) == Ok && !Acyclic(ParentsOf(Move(st, MOVE_INSIDE)))
  {
    var st := Unfinished();
    assert RowSound(st, 0) && ClaimSound(st, 0) && Ranked(ParentsOf(st), map[0 := 0]);
    var looped := ParentsOf(Move(Create(st, FOLDER_INSIDE), MOVE_INSIDE));
    assert looped[0] == Some(1) && looped[1] == Some(0);
    assert Climbs(looped, looped.Keys, 0, 0, 2);
    assert OnCycle(looped, looped.Keys, 0);
    if Acyclic(looped) {
      AcyclicHasNoCycle(looped, looped.Keys, 0);
    }
  }
}
