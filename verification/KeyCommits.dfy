/**
 The write requests: what a client builds from what it last saw, what the server
 checks, and what it then writes.

 The server cannot look inside a wrap. Whether the database stays sound after an
 accepted request therefore depends on how current the client's view was, and for
 each request that condition is given exactly.
 */
module KeyCommits {
  import opened Common
  import opened Forest
  import opened KeyTree

  datatype Outcome = Ok | NotFound | BadRequest | Forbidden | Conflict | ServerError

  function SealKeys(k: Keys, sender: User, to: Key): Claim {
    Claim(Sealed(k, UserKey(sender), to), UserKey(sender))
  }

  function SealGrant(priv: Key, sender: User, to: User, level: Level): Grant {
    Grant(Sealed(priv, UserKey(sender), UserKey(to)), UserKey(sender), level)
  }

  ghost predicate Fresh(st: Server, pub: Key) {
    pub.HierKey? && forall f :: f in st.files ==> st.files[f].pub != pub
  }

  // -------------------------------------------------------------------
  // Create a folder, or start an upload
  // -------------------------------------------------------------------

  /** `seenParentPub` is the parent's public key as the client has it. */
  datatype NewFile = NewFile(
    id: Id, caller: User, parent: Option<Id>, isFolder: bool, uploadComplete: bool,
    pub: Key, session: Session, seenParentPub: Key)

  /** The row inherits its parent's workspace. */
  function NewRow(st: Server, n: NewFile): FileRow {
    FileRow(n.caller, n.parent, n.isFolder, n.uploadComplete, false,
            if n.parent.Some? && n.parent.value in st.files then st.files[n.parent.value].workspace else None, n.pub,
            Sealed(n.session, UserKey(n.caller), n.pub), n.session,
            if n.parent.None? then None else Some(SealKeys(Keys(n.session, n.pub), n.caller, n.seenParentPub)))
  }

  /**
   The folder route checks that the parent is a folder only when the caller has a
   grant on it and it is neither unfinished nor in the trash; the upload route never
   does.
   */
  function CreateVerdict(st: Server, n: NewFile): Outcome {
    if n.id in st.files then ServerError
    else if n.parent.None? then Ok
    else if n.parent.value in st.files && n.isFolder && (n.parent.value, n.caller) in st.grants
            && Visible(st.files[n.parent.value]) && !st.files[n.parent.value].isFolder then BadRequest
    else if EffectiveLevel(st, n.parent.value, n.caller).None? then NotFound
    else if EffectiveLevel(st, n.parent.value, n.caller) == Some(Viewer) then Forbidden
    else if n.parent.value !in st.files then ServerError
    else Ok
  }

  function Insert(st: Server, n: NewFile): Server {
    Server(st.files[n.id := NewRow(st, n)],
           st.grants[(n.id, n.caller) := SealGrant(n.pub, n.caller, n.caller, Owner)])
  }

  function Create(st: Server, n: NewFile): Server {
    if CreateVerdict(st, n) == Ok then Insert(st, n) else st
  }

  /** The parent is a folder and the client's copy of its public key is the current one. */
  predicate ParentCurrent(st: Server, parent: Option<Id>, seenPub: Key) {
    parent.Some? ==>
      parent.value in st.files && st.files[parent.value].isFolder && st.files[parent.value].pub == seenPub
  }

  lemma InsertedRows(st: Server, n: NewFile)
    requires RowsSound(st) && KeysDistinct(st) && Fresh(st, n.pub) && n.id !in st.files
    ensures RowsSound(Insert(st, n)) && KeysDistinct(Insert(st, n))
  {
    forall f | f in Insert(st, n).files
      ensures RowSound(Insert(st, n), f)
    {
      if f != n.id { assert RowSound(st, f); }
    }
  }

  lemma InsertedGrants(st: Server, n: NewFile)
    requires GrantsSound(st) && n.id !in st.files
    ensures GrantsSound(Insert(st, n))
  {
    forall f: Id, u: User | (f, u) in Insert(st, n).grants
      ensures GrantSound(Insert(st, n), f, u)
    {
      if (f, u) != (n.id, n.caller) { assert GrantSound(st, f, u); }
    }
  }

  lemma InsertedClaims(st: Server, n: NewFile)
    requires ClaimsSound(st) && n.id !in st.files
    requires n.parent.Some? ==> n.parent.value in st.files
    ensures ClaimsSound(Insert(st, n)) <==> ParentCurrent(st, n.parent, n.seenParentPub)
  {
    var st' := Insert(st, n);
    assert ClaimSound(st', n.id) <==> ParentCurrent(st, n.parent, n.seenParentPub);
    forall f | f in st.files
      ensures ClaimSound(st', f)
    {
      assert ClaimSound(st, f);
    }
  }

  lemma CreateStaysSound(st: Server, n: NewFile)
    requires Sound(st) && Fresh(st, n.pub) && CreateVerdict(st, n) == Ok
    ensures Sound(Create(st, n)) <==> ParentCurrent(st, n.parent, n.seenParentPub)
  {
    InsertKeepsAcyclic(ParentsOf(st), n.id, n.parent);
    assert ParentsOf(Insert(st, n)) == ParentsOf(st)[n.id := n.parent];
    InsertedRows(st, n);
    InsertedGrants(st, n);
    InsertedClaims(st, n);
  }

  // -------------------------------------------------------------------
  // Share, unshare, leave, permission, finalize
  // -------------------------------------------------------------------

  /** `seenPriv` is the private key the caller resolved for the file. */
  datatype ShareRequest = ShareRequest(caller: User, file: Id, recipient: User, seenPriv: Key, level: Option<Level>)

  function ShareVerdict(st: Server, r: ShareRequest): Outcome {
    if r.level == Some(Owner) then BadRequest
    else if r.file !in st.files || !Visible(st.files[r.file]) || !MayWrite(st, r.file, r.caller) then NotFound
    else if r.recipient == r.caller || r.recipient == st.files[r.file].owner then BadRequest
    else Ok
  }

  /** A collaborator's re-share to someone who already has a grant is accepted but writes nothing. */
  predicate ShareWrites(st: Server, r: ShareRequest) {
    && ShareVerdict(st, r) == Ok
    && ((r.file, r.recipient) !in st.grants || EffectiveLevel(st, r.file, r.caller) == Some(Owner))
  }

  function ShareLevel(st: Server, r: ShareRequest): Level {
    match r.level
    case Some(l) => l
    case None =>
      if (r.file, r.recipient) in st.grants && st.grants[(r.file, r.recipient)].level != Owner
      then st.grants[(r.file, r.recipient)].level else Editor
  }

  function Share(st: Server, r: ShareRequest): Server {
    if !ShareWrites(st, r) then st
    else st.(grants := st.grants[(r.file, r.recipient) :=
                                 SealGrant(r.seenPriv, r.caller, r.recipient, ShareLevel(st, r))])
  }

  lemma ShareStaysSound(st: Server, r: ShareRequest)
    requires Sound(st)
    ensures Sound(Share(st, r)) <==> (ShareWrites(st, r) ==> r.seenPriv == st.files[r.file].pub)
  {
    if ShareWrites(st, r) {
      var st' := Share(st, r);
      assert ParentsOf(st') == ParentsOf(st);
      assert GrantSound(st', r.file, r.recipient) <==> r.seenPriv == st.files[r.file].pub;
      forall f | f in st.files
        ensures RowSound(st', f) && ClaimSound(st', f)
      {
        assert RowSound(st, f) && ClaimSound(st, f);
      }
      forall f, u | (f, u) in st'.grants && (f, u) != (r.file, r.recipient)
        ensures GrantSound(st', f, u)
      {
        assert GrantSound(st, f, u);
      }
    }
  }

  predicate Owns(st: Server, f: Id, u: User) {
    f in st.files && st.files[f].owner == u
  }

  /** Owners may remove others, everyone may remove themselves, owners may not. */
  predicate UnshareAllowed(st: Server, caller: User, f: Id, target: User) {
    if Owns(st, f, caller) then target != caller else target == caller
  }

  function DropGrant(st: Server, f: Id, u: User): Server {
    st.(grants := st.grants - {(f, u)})
  }

  function Unshare(st: Server, caller: User, f: Id, target: User): Server {
    if UnshareAllowed(st, caller, f, target) then DropGrant(st, f, target) else st
  }

  function Leave(st: Server, caller: User, f: Id): Server {
    if Owns(st, f, caller) then st else DropGrant(st, f, caller)
  }

  function SetLevel(st: Server, caller: User, f: Id, target: User, level: Level): Server {
    if level != Owner && Owns(st, f, caller) && target != caller && (f, target) in st.grants
    then st.(grants := st.grants[(f, target) := st.grants[(f, target)].(level := level)]) else st
  }

  function Finalize(st: Server, caller: User, f: Id): Server {
    if Owns(st, f, caller) then st.(files := st.files[f := st.files[f].(uploadComplete := true)]) else st
  }

  /**
   Soft delete and restore as far as keys are concerned: a flag on some rows. Which rows
   is the subject of the Trash module.
   */
  function Flag(st: Server, ids: set<Id>, trashed: bool): Server {
    st.(files := map f | f in st.files :: if f in ids then st.files[f].(trashed := trashed) else st.files[f])
  }

  /** Key material and positions unchanged, no owner's grant gone. */
  ghost predicate SameWraps(st: Server, st': Server) {
    && st'.files.Keys == st.files.Keys
    && (forall f :: f in st.files ==> st'.files[f] == st.files[f].(uploadComplete := st'.files[f].uploadComplete,
                                                                  trashed := st'.files[f].trashed))
    && (forall k :: k in st'.grants ==> k in st.grants && st'.grants[k] == st.grants[k].(level := st'.grants[k].level))
    && (forall f :: f in st.files && (f, st.files[f].owner) in st.grants ==> (f, st.files[f].owner) in st'.grants)
  }

  lemma SameWrapsStaySound(st: Server, st': Server)
    requires Sound(st) && SameWraps(st, st')
    ensures Sound(st')
  {
    assert ParentsOf(st') == ParentsOf(st);
    forall f | f in st.files
      ensures RowSound(st', f) && ClaimSound(st', f)
    {
      assert RowSound(st, f) && ClaimSound(st, f);
    }
    forall f, u | (f, u) in st'.grants
      ensures GrantSound(st', f, u)
    {
      assert GrantSound(st, f, u);
    }
  }

  lemma DropKeepsWraps(st: Server, f: Id, u: User)
    requires !Owns(st, f, u)
    ensures SameWraps(st, DropGrant(st, f, u))
  {
  }

  lemma LevelKeepsWraps(st: Server, caller: User, f: Id, target: User, level: Level)
    ensures SameWraps(st, SetLevel(st, caller, f, target, level))
  {
  }

  lemma FinalizeKeepsWraps(st: Server, caller: User, f: Id)
    ensures SameWraps(st, Finalize(st, caller, f))
  {
  }

  lemma FlagKeepsWraps(st: Server, ids: set<Id>, trashed: bool)
    ensures SameWraps(st, Flag(st, ids, trashed))
  {
  }

  lemma FlaggedStaysSound(st: Server, ids: set<Id>, trashed: bool)
    requires Sound(st)
    ensures Sound(Flag(st, ids, trashed))
  {
    FlagKeepsWraps(st, ids, trashed);
    SameWrapsStaySound(st, Flag(st, ids, trashed));
  }

  /** These four never touch a wrap, whoever calls them; in particular no owner ever loses their own grant. */
  lemma BookkeepingStaysSound(st: Server, caller: User, f: Id, target: User, level: Level)
    requires Sound(st)
    ensures Sound(Unshare(st, caller, f, target)) && Sound(Leave(st, caller, f))
    ensures Sound(SetLevel(st, caller, f, target, level)) && Sound(Finalize(st, caller, f))
  {
    if UnshareAllowed(st, caller, f, target) {
      DropKeepsWraps(st, f, target);
      SameWrapsStaySound(st, DropGrant(st, f, target));
    }
    if !Owns(st, f, caller) {
      DropKeepsWraps(st, f, caller);
      SameWrapsStaySound(st, DropGrant(st, f, caller));
    }
    LevelKeepsWraps(st, caller, f, target, level);
    SameWrapsStaySound(st, SetLevel(st, caller, f, target, level));
    FinalizeKeepsWraps(st, caller, f);
    SameWrapsStaySound(st, Finalize(st, caller, f));
  }

  // -------------------------------------------------------------------
  // A new version of a file
  // -------------------------------------------------------------------

  /**
   A version row that becomes the current one, by finishing its upload or by restoring it.
   It was sealed to `seenPub`, and carries a claim if its maker knew the parent's key.
   */
  datatype VersionRequest = VersionRequest(
    caller: User, file: Id, seenPub: Key, session: Session, seenParentPub: Option<Key>, restored: bool)

  predicate VersionLands(st: Server, r: VersionRequest) {
    && Owns(st, r.file, r.caller) && !st.files[r.file].isFolder
    && (r.restored ==> Visible(st.files[r.file]) && (r.file, r.caller) in st.grants)
  }

  /** The version's session key moves into the file's row; the row's claim stays if the version has none. */
  function RowOfVersion(row: FileRow, r: VersionRequest): FileRow {
    row.(sessionBox := Sealed(r.session, UserKey(r.caller), r.seenPub), metaKey := r.session,
         claim := if r.seenParentPub.None? then row.claim
                  else Some(SealKeys(Keys(r.session, r.seenPub), r.caller, r.seenParentPub.value)))
  }

  function PutVersion(st: Server, r: VersionRequest): Server {
    if VersionLands(st, r) then st.(files := st.files[r.file := RowOfVersion(st.files[r.file], r)]) else st
  }

  /** Sealed to the file's key and, unless there is no parent or nothing new to seal, to the parent's. */
  predicate VersionCurrent(st: Server, r: VersionRequest)
    requires r.file in st.files
  {
    var row := st.files[r.file];
    && r.seenPub == row.pub
    && match row.parent
       case None => r.seenParentPub.None?
       case Some(p) =>
         if r.seenParentPub.Some? then p in st.files && r.seenParentPub == Some(st.files[p].pub)
         else r.session == row.sessionBox.payload
  }

  lemma VersionedClaims(st: Server, r: VersionRequest)
    requires Sound(st) && VersionLands(st, r) && r.seenPub == st.files[r.file].pub
    ensures ClaimsSound(PutVersion(st, r)) <==> VersionCurrent(st, r)
  {
    var st' := PutVersion(st, r);
    assert RowSound(st, r.file) && ClaimSound(st, r.file);
    assert ClaimSound(st', r.file) <==> VersionCurrent(st, r);
    forall g | g in st.files && g != r.file
      ensures ClaimSound(st', g)
    {
      assert ClaimSound(st, g);
    }
  }

  /** A version that lands keeps the keys in order exactly when the keys it was sealed to are current. */
  lemma VersionStaysSound(st: Server, r: VersionRequest)
    requires Sound(st)
    ensures Sound(PutVersion(st, r)) <==> (VersionLands(st, r) ==> VersionCurrent(st, r))
  {
    if VersionLands(st, r) {
      var st' := PutVersion(st, r);
      assert ParentsOf(st') == ParentsOf(st);
      assert RowSound(st', r.file) <==> RowSound(st, r.file) && r.seenPub == st.files[r.file].pub;
      if r.seenPub == st.files[r.file].pub {
        VersionedClaims(st, r);
        VersionedRows(st, r);
      }
    }
  }

  lemma VersionedRows(st: Server, r: VersionRequest)
    requires Sound(st) && VersionLands(st, r) && r.seenPub == st.files[r.file].pub
    ensures RowsSound(PutVersion(st, r)) && KeysDistinct(PutVersion(st, r)) && GrantsSound(PutVersion(st, r))
  {
    var st' := PutVersion(st, r);
    forall g | g in st.files
      ensures RowSound(st', g)
    {
      assert RowSound(st, g);
    }
    forall g: Id, u: User | (g, u) in st'.grants
      ensures GrantSound(st', g, u)
    {
      assert GrantSound(st, g, u);
    }
  }

  // -------------------------------------------------------------------
  // Move
  // -------------------------------------------------------------------

  /** `seen` are the keys the client opened the file with, `seenDestPub` the destination's public key as listed. */
  datatype MoveRequest = MoveRequest(caller: User, file: Id, dest: Option<Id>, seen: Keys, seenDestPub: Key)

  function MoveVerdict(st: Server, r: MoveRequest): Outcome {
    if r.file !in st.files then NotFound
    else
      var row, isOwner := st.files[r.file], Owns(st, r.file, r.caller);
      if !isOwner && !MayWrite(st, r.file, r.caller) then NotFound
      else if row.trashed then BadRequest
      else if row.parent == r.dest then Ok
      else if r.dest.None? then if !isOwner && row.workspace.Some? then Forbidden else Ok
      else if !Owns(st, r.dest.value, r.caller) && !MayWrite(st, r.dest.value, r.caller) then NotFound
      else if r.dest.value !in st.files then NotFound
      else if !st.files[r.dest.value].isFolder then BadRequest
      else if st.files[r.dest.value].trashed then BadRequest
      else if !isOwner && row.workspace.None? && st.files[r.dest.value].owner != row.owner then Forbidden
      else if row.isFolder && IsDescendantOf(ParentsOf(st), r.file, r.dest.value) == Yes then BadRequest
      else if row.isFolder && IsDescendantOf(ParentsOf(st), r.file, r.dest.value) == Capped then ServerError
      else if !isOwner && row.workspace != st.files[r.dest.value].workspace then Forbidden
      else Ok
  }

  /** A move to where the file already is succeeds without writing. */
  predicate MoveWrites(st: Server, r: MoveRequest) {
    MoveVerdict(st, r) == Ok && st.files[r.file].parent != r.dest
  }

  function Rehang(st: Server, r: MoveRequest): Server
    requires r.file in st.files
  {
    st.(files := st.files[r.file := st.files[r.file].(
          parent := r.dest,
          workspace := if r.dest.Some? && r.dest.value in st.files then st.files[r.dest.value].workspace else None,
          claim := if r.dest.None? then None else Some(SealKeys(r.seen, r.caller, r.seenDestPub)))])
  }

  function Move(st: Server, r: MoveRequest): Server {
    if MoveWrites(st, r) then Rehang(st, r) else st
  }

  predicate MoveCurrent(st: Server, r: MoveRequest)
    requires r.file in st.files
  {
    r.dest.Some? ==> r.dest.value in st.files && st.files[r.dest.value].pub == r.seenDestPub
                     && r.seen == TrueKeys(st.files[r.file])
  }

  lemma ChildlessUnlessFolder(st: Server, f: Id, d: Id)
    requires ClaimsSound(st) && f in st.files && !st.files[f].isFolder
    requires Reaches(ParentsOf(st), ParentsOf(st).Keys, d, f)
    ensures d == f
  {
    var par := ParentsOf(st);
    var n: nat :| Climbs(par, par.Keys, d, f, n);
    forall c | c in st.files
      ensures par[c] != Some(f)
    {
      assert ClaimSound(st, c);
    }
    if n > 0 {
      var child := Along(par, par.Keys, d, f, n, 1);
      assert false;
    }
  }

  /** What the checks of the move route amount to. */
  lemma MoveChecks(st: Server, r: MoveRequest)
    requires Sound(st) && MoveWrites(st, r)
    ensures r.dest.Some? ==> r.dest.value in st.files && st.files[r.dest.value].isFolder
    ensures r.dest.Some? ==> r.dest.value !in Subtree(ParentsOf(st), ParentsOf(st).Keys, r.file)
  {
    if r.dest.Some? && r.dest.value in Subtree(ParentsOf(st), ParentsOf(st).Keys, r.file) {
      if st.files[r.file].isFolder {
        IsDescendantOfExact(ParentsOf(st), r.file, r.dest.value);
      } else {
        ChildlessUnlessFolder(st, r.file, r.dest.value);
      }
    }
  }

  lemma RehungRows(st: Server, r: MoveRequest)
    requires RowsSound(st) && KeysDistinct(st) && GrantsSound(st) && r.file in st.files
    ensures RowsSound(Rehang(st, r)) && KeysDistinct(Rehang(st, r)) && GrantsSound(Rehang(st, r))
  {
    var st' := Rehang(st, r);
    forall f | f in st.files
      ensures RowSound(st', f)
    {
      assert RowSound(st, f);
    }
    forall f: Id, u: User | (f, u) in st'.grants
      ensures GrantSound(st', f, u)
    {
      assert GrantSound(st, f, u);
    }
  }

  lemma RehungClaims(st: Server, r: MoveRequest)
    requires ClaimsSound(st) && r.file in st.files
    requires r.dest.Some? ==> r.dest.value in st.files && st.files[r.dest.value].isFolder
    ensures ClaimsSound(Rehang(st, r)) <==> MoveCurrent(st, r)
  {
    var st' := Rehang(st, r);
    forall f | f in st.files && f != r.file
      ensures ClaimSound(st', f)
    {
      assert ClaimSound(st, f);
    }
    assert ClaimSound(st', r.file) <==> MoveCurrent(st, r);
  }

  /** Moves never close a loop, and keep the keys in order exactly when the client's keys were current. */
  lemma MoveStaysSound(st: Server, r: MoveRequest)
    requires Sound(st)
    ensures Sound(Move(st, r)) <==> (MoveWrites(st, r) ==> MoveCurrent(st, r))
    ensures Acyclic(ParentsOf(Move(st, r)))
  {
    if MoveWrites(st, r) {
      MoveChecks(st, r);
      MoveKeepsAcyclic(ParentsOf(st), r.file, r.dest);
      assert ParentsOf(Rehang(st, r)) == ParentsOf(st)[r.file := r.dest];
      RehungRows(st, r);
      RehungClaims(st, r);
    }
  }
}
