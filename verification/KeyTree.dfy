/**
 The two-layer key design: every file has a session key and a hierarchical
 keypair; a file_keys row wraps the private half for one user, and a
 parent_keys_claim wraps both keys for whoever holds the parent's private half.

 Wraps are symbolic. A keypair is one `Key`: wrapping to its public half and
 holding its private half both name that key, and `Unseal` is the only way in.
 The X25519 and ML-KEM halves of a keypair are treated as one.
 */
module KeyTree {
  import opened Common
  import opened Forest

  type User = nat
  type Session = nat

  datatype Key = UserKey(user: User) | HierKey(serial: nat)

  /** hybridWrap: encrypted to the recipient's public half, authenticated by the sender's private half. */
  datatype Sealed<+P> = Sealed(payload: P, sender: Key, recipient: Key)

  /** hybridUnwrap: fails unless the private half and the claimed sender are both right. */
  function Unseal<P>(box: Sealed<P>, sender: Key, priv: Key): Option<P> {
    if box.sender == sender && box.recipient == priv then Some(box.payload) else None
  }

  /** The pair of keys that opens a file. */
  datatype Keys = Keys(session: Session, priv: Key)

  datatype Claim = Claim(box: Sealed<Keys>, wrappedBy: Key)

  datatype Level = Owner | Editor | Viewer

  /** A row of file_keys. */
  datatype Grant = Grant(box: Sealed<Key>, wrappedBy: Key, level: Level)

  /**
   A row of files; `metaKey` is the session key its encrypted_metadata was sealed with,
   `trashed` says that deleted_at is set.
   */
  datatype FileRow = FileRow(
    owner: User, parent: Option<Id>, isFolder: bool, uploadComplete: bool, trashed: bool, workspace: Option<nat>,
    pub: Key, sessionBox: Sealed<Session>, metaKey: Session, claim: Option<Claim>)

  datatype Server = Server(files: map<Id, FileRow>, grants: map<(Id, User), Grant>)

  function ParentsOf(st: Server): Parents {
    map f | f in st.files :: st.files[f].parent
  }

  /** Rows that lookups by id do not hide. */
  predicate Visible(row: FileRow) {
    row.uploadComplete && !row.trashed
  }

  function TrueKeys(row: FileRow): Keys {
    Keys(row.sessionBox.payload, row.pub)
  }

  // -------------------------------------------------------------------
  // What a healthy database looks like
  // -------------------------------------------------------------------

  /** The row's own wraps open with its own key, and its owner holds a grant. */
  predicate RowSound(st: Server, f: Id)
    requires f in st.files
  {
    var row := st.files[f];
    && row.pub.HierKey?
    && row.sessionBox.sender == UserKey(row.owner)
    && row.sessionBox.recipient == row.pub
    && row.metaKey == row.sessionBox.payload
    && (f, row.owner) in st.grants
  }

  /** The claim opens with the parent's current key and yields the row's current keys. */
  predicate ClaimSound(st: Server, f: Id)
    requires f in st.files
  {
    var row := st.files[f];
    match row.parent
    case None => row.claim.None?
    case Some(p) =>
      && p in st.files && st.files[p].isFolder
      && row.claim.Some?
      && Unseal(row.claim.value.box, row.claim.value.wrappedBy, st.files[p].pub) == Some(TrueKeys(row))
  }

  /** The grant opens for its user and yields the file's current private key. */
  predicate GrantSound(st: Server, f: Id, u: User)
    requires (f, u) in st.grants
  {
    var g := st.grants[(f, u)];
    f in st.files && Unseal(g.box, g.wrappedBy, UserKey(u)) == Some(st.files[f].pub)
  }

  predicate KeysDistinct(st: Server) {
    forall f, g :: f in st.files && g in st.files && st.files[f].pub == st.files[g].pub ==> f == g
  }

  predicate RowsSound(st: Server) {
    forall f :: f in st.files ==> RowSound(st, f)
  }

  predicate ClaimsSound(st: Server) {
    forall f :: f in st.files ==> ClaimSound(st, f)
  }

  ghost predicate GrantsSound(st: Server) {
    forall f, u :: (f, u) in st.grants ==> GrantSound(st, f, u)
  }

  ghost predicate Sound(st: Server) {
    && Acyclic(ParentsOf(st))
    && KeysDistinct(st)
    && RowsSound(st)
    && ClaimsSound(st)
    && GrantsSound(st)
  }

  // -------------------------------------------------------------------
  // Permissions
  // -------------------------------------------------------------------

  /** getEffectivePermission: the direct row's level, else the nearest ancestor's, at most 64 levels up. */
  function EffectiveLevel(st: Server, f: Id, u: User, budget: nat := MAX_DEPTH): Option<Level>
    decreases budget
  {
    if (f, u) in st.grants then Some(st.grants[(f, u)].level)
    else if budget == 0 || f !in st.files || st.files[f].parent.None? then None
    else EffectiveLevel(st, st.files[f].parent.value, u, budget - 1)
  }

  predicate MayWrite(st: Server, f: Id, u: User) {
    EffectiveLevel(st, f, u) == Some(Owner) || EffectiveLevel(st, f, u) == Some(Editor)
  }

  function UsersOn(st: Server, f: Id): set<User> {
    set k | k in st.grants && k.0 == f :: k.1
  }

  function CompleteChildren(st: Server, f: Id): set<Id> {
    set c | c in st.files && st.files[c].parent == Some(f) && st.files[c].uploadComplete
  }
}
