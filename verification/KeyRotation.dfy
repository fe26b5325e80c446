/**
 Key rotation: the file rotation and the shallow folder rotation, as the client
 builds them from what it has seen and as the server commits them.
 */
module KeyRotation {
  import opened Common
  import opened Forest
  import opened KeyTree
  import opened KeyCommits

  datatype NewGrant = NewGrant(user: User, grant: Grant)
  datatype Rewrap = Rewrap(id: Id, claim: Claim)

  /** The body of a rotate-commit or rotate-folder-commit request; a file's has no rewraps. */
  datatype Commit = Commit(
    pub: Key, sessionBox: Sealed<Session>, metaKey: Session, claim: Option<Claim>,
    rewraps: seq<Rewrap>, remaining: seq<NewGrant>, revoked: User)

  function RemainingUsers(p: Commit): set<User> {
    set i | 0 <= i < |p.remaining| :: p.remaining[i].user
  }

  function RewrapIds(p: Commit): set<Id> {
    set i | 0 <= i < |p.rewraps| :: p.rewraps[i].id
  }

  // -------------------------------------------------------------------
  // What the server checks
  // -------------------------------------------------------------------

  /** The checks on the collaborator set, shared by both routes. */
  function AclVerdict(st: Server, caller: User, f: Id, p: Commit): Outcome {
    if p.revoked == caller then BadRequest
    else if UsersOn(st, f) != RemainingUsers(p) + {p.revoked} then Conflict
    else if p.revoked !in UsersOn(st, f) then BadRequest
    else if caller !in RemainingUsers(p) then BadRequest
    else if p.revoked in RemainingUsers(p) then BadRequest
    else Ok
  }

  function FileVerdict(st: Server, caller: User, f: Id, p: Commit): Outcome {
    if !Owns(st, f, caller) then NotFound
    else if st.files[f].isFolder then BadRequest
    else AclVerdict(st, caller, f, p)
  }

  function FolderVerdict(st: Server, caller: User, f: Id, p: Commit): Outcome {
    if !Owns(st, f, caller) then NotFound
    else if !st.files[f].isFolder then BadRequest
    else if AclVerdict(st, caller, f, p) != Ok then AclVerdict(st, caller, f, p)
    else if CompleteChildren(st, f) != RewrapIds(p) then Conflict
    else Ok
  }

  // -------------------------------------------------------------------
  // What the server writes, statement by statement
  // -------------------------------------------------------------------

  datatype Statement =
    | PutRow(f: Id, pub: Key, sessionBox: Sealed<Session>, metaKey: Session, claim: Option<Claim>)
    | PutGrants(f: Id, grants: seq<NewGrant>)
    | PutClaim(parent: Id, rewrap: Rewrap)
    | RemoveGrant(f: Id, user: User)

  function Upsert(st: Server, f: Id, gs: seq<NewGrant>): Server
    decreases |gs|
  {
    if gs == [] then st
    else Upsert(st.(grants := st.grants[(f, gs[0].user) := gs[0].grant]), f, gs[1..])
  }

  function Execute(st: Server, s: Statement): Server {
    match s
    case PutRow(f, pub, sessionBox, metaKey, claim) =>
      if f !in st.files then st
      else st.(files := st.files[f := st.files[f].(pub := pub, sessionBox := sessionBox, metaKey := metaKey,
                                                   claim := claim)])
    case PutGrants(f, gs) => Upsert(st, f, gs)
    case PutClaim(parent, r) =>
      if r.id !in st.files || st.files[r.id].parent != Some(parent) then st
      else st.(files := st.files[r.id := st.files[r.id].(claim := Some(r.claim))])
    case RemoveGrant(f, u) => DropGrant(st, f, u)
  }

  function ExecuteAll(st: Server, ss: seq<Statement>): Server
    decreases |ss|
  {
    if ss == [] then st else ExecuteAll(Execute(st, ss[0]), ss[1..])
  }

  function RewrapStatements(f: Id, rs: seq<Rewrap>): (ss: seq<Statement>)
    ensures |ss| == |rs| && forall i :: 0 <= i < |rs| ==> ss[i] == PutClaim(f, rs[i])
  {
    if rs == [] then [] else [PutClaim(f, rs[0])] + RewrapStatements(f, rs[1..])
  }

  /** The order both routes use: the row, the remaining grants, the children, and the revoked grant last. */
  function Statements(f: Id, p: Commit): seq<Statement> {
    [PutRow(f, p.pub, p.sessionBox, p.metaKey, p.claim), PutGrants(f, p.remaining)]
    + RewrapStatements(f, p.rewraps)
    + [RemoveGrant(f, p.revoked)]
  }

  /** An upsert that names a user twice is refused by the database, after the row is already written. */
  predicate RepeatsUser(p: Commit) {
    exists i, j :: 0 <= i < j < |p.remaining| && p.remaining[i].user == p.remaining[j].user
  }

  function CommitWith(verdict: Outcome, st: Server, f: Id, p: Commit): (Outcome, Server) {
    if verdict != Ok then (verdict, st)
    else if RepeatsUser(p) then (ServerError, Execute(st, Statements(f, p)[0]))
    else (Ok, ExecuteAll(st, Statements(f, p)))
  }

  function CommitFile(st: Server, caller: User, f: Id, p: Commit): (Outcome, Server) {
    CommitWith(FileVerdict(st, caller, f, p.(rewraps := [])), st, f, p.(rewraps := []))
  }

  function CommitFolder(st: Server, caller: User, f: Id, p: Commit): (Outcome, Server) {
    CommitWith(FolderVerdict(st, caller, f, p), st, f, p)
  }

  // -------------------------------------------------------------------
  // The combined effect of the statements
  // -------------------------------------------------------------------

  /** The last rewrap of `c` in `rs`. */
  function RewrapOf(rs: seq<Rewrap>, c: Id): Option<Claim>
    decreases |rs|
  {
    if rs == [] then None
    else if rs[|rs| - 1].id == c then Some(rs[|rs| - 1].claim)
    else RewrapOf(rs[..|rs| - 1], c)
  }

  function GrantOf(gs: seq<NewGrant>, u: User): Option<Grant>
    decreases |gs|
  {
    if gs == [] then None
    else if gs[|gs| - 1].user == u then Some(gs[|gs| - 1].grant)
    else GrantOf(gs[..|gs| - 1], u)
  }

  /** Row `g` after the commit: new keys on the rotated row, new claims on its children, nothing else. */
  function RowAfter(st: Server, f: Id, p: Commit, g: Id): FileRow
    requires g in st.files
  {
    var row := st.files[g];
    if g == f then row.(pub := p.pub, sessionBox := p.sessionBox, metaKey := p.metaKey, claim := p.claim)
    else if row.parent == Some(f) && RewrapOf(p.rewraps, g).Some? then row.(claim := RewrapOf(p.rewraps, g))
    else row
  }

  function GrantAfter(st: Server, f: Id, p: Commit, k: (Id, User)): Option<Grant> {
    if k.0 == f && k.1 == p.revoked then None
    else if k.0 == f && GrantOf(p.remaining, k.1).Some? then GrantOf(p.remaining, k.1)
    else if k in st.grants then Some(st.grants[k]) else None
  }

  // The database after the commit, described cell by cell.

  ghost predicate RowsCommitted(st: Server, f: Id, p: Commit, st': Server) {
    && st'.files.Keys == st.files.Keys
    && forall g :: g in st.files ==> st'.files[g] == RowAfter(st, f, p, g)
  }

  predicate GrantCommitted(st: Server, f: Id, p: Commit, st': Server, k: (Id, User)) {
    GrantAfter(st, f, p, k) == if k in st'.grants then Some(st'.grants[k]) else None
  }

  ghost predicate GrantsCommitted(st: Server, f: Id, p: Commit, st': Server) {
    forall k :: GrantCommitted(st, f, p, st', k)
  }

  ghost predicate IsCommitted(st: Server, f: Id, p: Commit, st': Server) {
    RowsCommitted(st, f, p, st') && GrantsCommitted(st, f, p, st')
  }

  lemma {:induction false} UpsertEffect(st: Server, f: Id, gs: seq<NewGrant>, k: (Id, User))
    ensures Upsert(st, f, gs).files == st.files
    ensures (if k in Upsert(st, f, gs).grants then Some(Upsert(st, f, gs).grants[k]) else None) ==
            if k.0 == f && GrantOf(gs, k.1).Some? then GrantOf(gs, k.1)
            else if k in st.grants then Some(st.grants[k]) else None
    decreases |gs|
  {
    if gs != [] {
      UpsertEffect(st.(grants := st.grants[(f, gs[0].user) := gs[0].grant]), f, gs[1..], k);
      GrantOfHead(gs, k.1);
    }
  }

  lemma {:induction false} GrantOfHead(gs: seq<NewGrant>, u: User)
    requires gs != []
    ensures GrantOf(gs, u) == if GrantOf(gs[1..], u).Some? then GrantOf(gs[1..], u)
                              else if gs[0].user == u then Some(gs[0].grant) else None
    decreases |gs|
  {
    if |gs| > 1 {
      var n := |gs|;
      assert gs[1..][..n - 2] == gs[..n - 1][1..];
      GrantOfHead(gs[..n - 1], u);
    }
  }

  lemma {:induction false} RewrapOfHead(rs: seq<Rewrap>, c: Id)
    requires rs != []
    ensures RewrapOf(rs, c) == if RewrapOf(rs[1..], c).Some? then RewrapOf(rs[1..], c)
                               else if rs[0].id == c then Some(rs[0].claim) else None
    decreases |rs|
  {
    if |rs| > 1 {
      var n := |rs|;
      assert rs[1..][..n - 2] == rs[..n - 1][1..];
      RewrapOfHead(rs[..n - 1], c);
    }
  }

  function Rewrapped(row: FileRow, f: Id, claim: Option<Claim>): FileRow {
    if row.parent == Some(f) && claim.Some? then row.(claim := claim) else row
  }

  lemma {:induction false} RewrapEffect(st: Server, f: Id, rs: seq<Rewrap>, g: Id)
    ensures ExecuteAll(st, RewrapStatements(f, rs)).grants == st.grants
    ensures ExecuteAll(st, RewrapStatements(f, rs)).files.Keys == st.files.Keys
    ensures g in st.files ==>
              ExecuteAll(st, RewrapStatements(f, rs)).files[g] == Rewrapped(st.files[g], f, RewrapOf(rs, g))
    decreases |rs|
  {
    if rs != [] {
      var st1 := Execute(st, PutClaim(f, rs[0]));
      assert RewrapStatements(f, rs)[1..] == RewrapStatements(f, rs[1..]);
      RewrapEffect(st1, f, rs[1..], g);
      RewrapOfHead(rs, g);
    }
  }

  lemma {:induction false} ExecuteAllAppend(st: Server, a: seq<Statement>, b: seq<Statement>)
    ensures ExecuteAll(st, a + b) == ExecuteAll(ExecuteAll(st, a), b)
    decreases |a|
  {
    if a == [] {
      assert a + b == b;
    } else {
      assert (a + b)[1..] == a[1..] + b;
      ExecuteAllAppend(Execute(st, a[0]), a[1..], b);
    }
  }

  lemma StatementsInOrder(st: Server, f: Id, p: Commit)
    ensures ExecuteAll(st, Statements(f, p)) ==
            DropGrant(ExecuteAll(Execute(Execute(st, PutRow(f, p.pub, p.sessionBox, p.metaKey, p.claim)),
                                         PutGrants(f, p.remaining)),
                                 RewrapStatements(f, p.rewraps)),
                      f, p.revoked)
  {
    var head := [PutRow(f, p.pub, p.sessionBox, p.metaKey, p.claim), PutGrants(f, p.remaining)];
    var mid, last := RewrapStatements(f, p.rewraps), RemoveGrant(f, p.revoked);
    var st1 := Execute(st, head[0]);
    assert head[1..] == [head[1]];
    assert ExecuteAll(st1, [head[1]]) == ExecuteAll(Execute(st1, head[1]), []);
    assert ExecuteAll(st, head) == Execute(st1, head[1]);
    ExecuteAllAppend(st, head, mid);
    ExecuteAllAppend(st, head + mid, [last]);
    assert [last][1..] == [];
  }

  lemma RowEffect(st: Server, f: Id, p: Commit, g: Id)
    requires f in st.files && st.files[f].parent != Some(f)
    ensures ExecuteAll(st, Statements(f, p)).files.Keys == st.files.Keys
    ensures g in st.files ==> ExecuteAll(st, Statements(f, p)).files[g] == RowAfter(st, f, p, g)
  {
    StatementsInOrder(st, f, p);
    var st1 := Execute(st, PutRow(f, p.pub, p.sessionBox, p.metaKey, p.claim));
    UpsertEffect(st1, f, p.remaining, (f, p.revoked));
    RewrapEffect(Upsert(st1, f, p.remaining), f, p.rewraps, g);
  }

  lemma GrantEffect(st: Server, f: Id, p: Commit, k: (Id, User))
    requires f in st.files
    ensures GrantCommitted(st, f, p, ExecuteAll(st, Statements(f, p)), k)
  {
    StatementsInOrder(st, f, p);
    var st1 := Execute(st, PutRow(f, p.pub, p.sessionBox, p.metaKey, p.claim));
    UpsertEffect(st1, f, p.remaining, k);
    RewrapEffect(Upsert(st1, f, p.remaining), f, p.rewraps, f);
  }

  /** Running the statements one after another writes exactly the cells the commit is meant to write. */
  lemma CommitEffect(st: Server, f: Id, p: Commit)
    requires f in st.files && st.files[f].parent != Some(f)
    ensures IsCommitted(st, f, p, ExecuteAll(st, Statements(f, p)))
  {
    RowEffect(st, f, p, f);
    forall g | g in st.files
      ensures ExecuteAll(st, Statements(f, p)).files[g] == RowAfter(st, f, p, g)
    {
      RowEffect(st, f, p, g);
    }
    forall k: (Id, User)
      ensures GrantCommitted(st, f, p, ExecuteAll(st, Statements(f, p)), k)
    {
      GrantEffect(st, f, p, k);
    }
  }

  // -------------------------------------------------------------------
  // What the client builds
  // -------------------------------------------------------------------

  datatype SeenUser = SeenUser(user: User, level: Level)
  datatype SeenChild = SeenChild(id: Id, keys: Keys)

  /** What the client knew when it built the request: parent's public key, collaborators, children's keys. */
  datatype View = View(parentPub: Option<Key>, users: seq<SeenUser>, children: seq<SeenChild>)

  function BuildGrants(caller: User, pub: Key, users: seq<SeenUser>, revoked: User): seq<NewGrant> {
    if users == [] then [] else
      (if users[0].user == revoked then []
       else [NewGrant(users[0].user, SealGrant(pub, caller, users[0].user, users[0].level))])
      + BuildGrants(caller, pub, users[1..], revoked)
  }

  function BuildRewraps(caller: User, pub: Key, children: seq<SeenChild>): (rs: seq<Rewrap>)
    ensures |rs| == |children|
    ensures forall i :: 0 <= i < |rs| ==> rs[i] == Rewrap(children[i].id, SealKeys(children[i].keys, caller, pub))
  {
    if children == [] then [] else
      [Rewrap(children[0].id, SealKeys(children[0].keys, caller, pub))] + BuildRewraps(caller, pub, children[1..])
  }

  function Build(caller: User, v: View, pub: Key, session: Session, revoked: User): Commit {
    Commit(pub, Sealed(session, UserKey(caller), pub), session,
           if v.parentPub.None? then None else Some(SealKeys(Keys(session, pub), caller, v.parentPub.value)),
           BuildRewraps(caller, pub, v.children),
           BuildGrants(caller, pub, v.users, revoked),
           revoked)
  }

  /** The lists come from tables with these columns as keys. */
  predicate ListsOnce(v: View) {
    && (forall i, j :: 0 <= i < j < |v.users| ==> v.users[i].user != v.users[j].user)
    && (forall i, j :: 0 <= i < j < |v.children| ==> v.children[i].id != v.children[j].id)
  }

  lemma {:induction false} BuiltGrants(caller: User, pub: Key, users: seq<SeenUser>, revoked: User)
    ensures var gs := BuildGrants(caller, pub, users, revoked);
            && (forall g :: g in gs ==> g.user != revoked && g.grant == SealGrant(pub, caller, g.user, g.grant.level)
                                        && SeenUser(g.user, g.grant.level) in users)
    ensures (forall i, j :: 0 <= i < j < |users| ==> users[i].user != users[j].user) ==>
              forall i, j :: 0 <= i < j < |BuildGrants(caller, pub, users, revoked)| ==>
                BuildGrants(caller, pub, users, revoked)[i].user != BuildGrants(caller, pub, users, revoked)[j].user
    decreases |users|
  {
    if users != [] {
      BuiltGrants(caller, pub, users[1..], revoked);
      var gs := BuildGrants(caller, pub, users, revoked);
      var rest := BuildGrants(caller, pub, users[1..], revoked);
      forall g | g in gs
        ensures g.user != revoked && g.grant == SealGrant(pub, caller, g.user, g.grant.level)
        ensures SeenUser(g.user, g.grant.level) in users
      {
        if g !in rest {
          assert users[0] == SeenUser(g.user, g.grant.level);
        }
      }
      if (forall i, j :: 0 <= i < j < |users| ==> users[i].user != users[j].user) && users[0].user != revoked {
        forall j | 0 <= j < |rest|
          ensures rest[j].user != users[0].user
        {
          assert rest[j] in rest;
        }
      }
    }
  }

  lemma {:induction false} GrantOfMember(gs: seq<NewGrant>, u: User)
    ensures GrantOf(gs, u).Some? ==> NewGrant(u, GrantOf(gs, u).value) in gs
    ensures GrantOf(gs, u).Some? <==> exists i :: 0 <= i < |gs| && gs[i].user == u
    decreases |gs|
  {
    if gs != [] {
      GrantOfMember(gs[..|gs| - 1], u);
      if GrantOf(gs[..|gs| - 1], u).Some? {
        var i :| 0 <= i < |gs| - 1 && gs[..|gs| - 1][i].user == u;
        assert gs[i].user == u;
      }
    }
  }

  lemma {:induction false} RewrapOfMember(rs: seq<Rewrap>, c: Id)
    ensures RewrapOf(rs, c).Some? ==> Rewrap(c, RewrapOf(rs, c).value) in rs
    ensures RewrapOf(rs, c).Some? <==> exists i :: 0 <= i < |rs| && rs[i].id == c
    decreases |rs|
  {
    if rs != [] {
      RewrapOfMember(rs[..|rs| - 1], c);
      if RewrapOf(rs[..|rs| - 1], c).Some? {
        var i :| 0 <= i < |rs| - 1 && rs[..|rs| - 1][i].id == c;
        assert rs[i].id == c;
      }
    }
  }

  // -------------------------------------------------------------------
  // When the database is sound afterwards
  // -------------------------------------------------------------------

  /** The parent's key as seen is the parent's key now, and "no parent" was seen only if there is none. */
  predicate ParentSeen(st: Server, f: Id, v: View)
    requires f in st.files
  {
    match st.files[f].parent
    case None => v.parentPub.None?
    case Some(p) => p in st.files && v.parentPub == Some(st.files[p].pub)
  }

  /** Each child's keys as seen are the child's keys now. */
  predicate ChildrenSeen(st: Server, v: View) {
    forall i :: 0 <= i < |v.children| && v.children[i].id in st.files ==>
      v.children[i].keys == TrueKeys(st.files[v.children[i].id])
  }

  /** No upload into the folder is still in flight. */
  predicate NothingInFlight(st: Server, f: Id) {
    forall c :: c in st.files && st.files[c].parent == Some(f) ==> st.files[c].uploadComplete
  }

  /** The exact condition for a folder commit, and, with no children at all, for a file commit. */
  predicate ViewCurrent(st: Server, f: Id, v: View)
    requires f in st.files
  {
    ParentSeen(st, f, v) && ChildrenSeen(st, v) && NothingInFlight(st, f)
  }

  lemma OnIsGranted(st: Server, f: Id, u: User)
    ensures u in UsersOn(st, f) <==> (f, u) in st.grants
  {
    if u in UsersOn(st, f) {
      var k :| k in st.grants && k.0 == f && k.1 == u;
      assert k == (f, u);
    }
  }

  /** The new grants open for exactly the remaining users, and every other grant is as before. */
  lemma CommittedGrant(st: Server, caller: User, f: Id, v: View, pub: Key, session: Session, revoked: User, st': Server,
                       g: Id, u: User)
    requires ListsOnce(v) && f in st.files && ((g, u) in st.grants ==> GrantSound(st, g, u))
    requires AclVerdict(st, caller, f, Build(caller, v, pub, session, revoked)) == Ok
    requires IsCommitted(st, f, Build(caller, v, pub, session, revoked), st')
    ensures (g, u) in st'.grants <==> (g, u) in st.grants && (g, u) != (f, revoked)
    ensures (g, u) in st'.grants ==> GrantSound(st', g, u)
  {
    var p := Build(caller, v, pub, session, revoked);
    assert GrantCommitted(st, f, p, st', (g, u));
    if g == f {
      BuiltGrants(caller, pub, v.users, revoked);
      GrantOfMember(p.remaining, u);
      OnIsGranted(st, f, u);
      assert u in RemainingUsers(p) <==> GrantOf(p.remaining, u).Some?;
    }
  }

  /** Rows keep their place, and each opens with its own key. */
  lemma CommittedRows(st: Server, caller: User, f: Id, v: View, pub: Key, session: Session, revoked: User,
                      st': Server, g: Id)
    requires g in st.files && RowSound(st, g) && Owns(st, f, caller) && pub.HierKey?
    requires RowsCommitted(st, f, Build(caller, v, pub, session, revoked), st')
    requires (g, st.files[g].owner) in st'.grants
    ensures RowSound(st', g) && st'.files[g].parent == st.files[g].parent
    ensures st'.files[g].pub == if g == f then pub else st.files[g].pub
  {
    assert st'.files[g] == RowAfter(st, f, Build(caller, v, pub, session, revoked), g);
  }

  /** The claim of a row that is neither the rotated one nor a child of it is untouched and still opens. */
  lemma OtherClaims(st: Server, f: Id, p: Commit, st': Server, g: Id)
    requires g in st.files && ClaimSound(st, g) && f in st.files && RowsCommitted(st, f, p, st')
    requires g != f && st.files[g].parent != Some(f)
    ensures ClaimSound(st', g)
  {
    assert st'.files[g] == RowAfter(st, f, p, g);
    if st.files[g].parent.Some? {
      assert st'.files[st.files[g].parent.value] == RowAfter(st, f, p, st.files[g].parent.value);
    }
  }

  predicate SeenAs(v: View, c: Id, k: Keys) {
    SeenChild(c, k) in v.children
  }

  /** A child's rewrap seals the one pair of keys the client saw for it, and is missing only if it saw none. */
  lemma RewrapIsWhatWasSeen(caller: User, v: View, pub: Key, c: Id)
    requires forall i, j :: 0 <= i < j < |v.children| ==> v.children[i].id != v.children[j].id
    ensures var claim := RewrapOf(BuildRewraps(caller, pub, v.children), c);
            && (claim.Some? ==> claim == Some(SealKeys(claim.value.box.payload, caller, pub)))
            && forall k :: SeenAs(v, c, k) <==> claim.Some? && claim.value.box.payload == k
  {
    var rs := BuildRewraps(caller, pub, v.children);
    RewrapOfMember(rs, c);
    if RewrapOf(rs, c).Some? {
      var i :| 0 <= i < |rs| && rs[i] == Rewrap(c, RewrapOf(rs, c).value);
      assert v.children[i] == SeenChild(c, rs[i].claim.box.payload);
    } else {
      forall i | 0 <= i < |v.children|
        ensures v.children[i].id != c
      {
        assert rs[i].id == v.children[i].id;
      }
    }
  }

  /** A child's claim opens after the commit exactly if it was rewrapped, and with the child's current keys. */
  lemma ChildClaim(st: Server, caller: User, f: Id, v: View, pub: Key, session: Session, revoked: User,
                   st': Server, c: Id)
    requires c in st.files && ClaimSound(st, c) && st.files[c].parent == Some(f)
    requires Owns(st, f, caller) && st.files[f].parent != Some(f) && st.files[f].pub != pub
    requires RowsCommitted(st, f, Build(caller, v, pub, session, revoked), st')
    requires forall i, j :: 0 <= i < j < |v.children| ==> v.children[i].id != v.children[j].id
    ensures ClaimSound(st', c) <==> SeenAs(v, c, TrueKeys(st.files[c]))
  {
    var p := Build(caller, v, pub, session, revoked);
    assert st'.files[c] == RowAfter(st, f, p, c) && st'.files[f] == RowAfter(st, f, p, f);
    RewrapIsWhatWasSeen(caller, v, pub, c);
  }

  /** The rotated row's own claim opens exactly if the parent was seen as it is. */
  lemma OwnClaim(st: Server, caller: User, f: Id, v: View, pub: Key, session: Session, revoked: User, st': Server)
    requires Owns(st, f, caller) && ClaimSound(st, f) && st.files[f].parent != Some(f)
    requires RowsCommitted(st, f, Build(caller, v, pub, session, revoked), st')
    ensures ClaimSound(st', f) <==> ParentSeen(st, f, v)
  {
    var p := Build(caller, v, pub, session, revoked);
    assert st'.files[f] == RowAfter(st, f, p, f);
    if st.files[f].parent.Some? {
      assert st'.files[st.files[f].parent.value] == RowAfter(st, f, p, st.files[f].parent.value);
    }
  }

  lemma NotOwnParent(st: Server, f: Id)
    requires Sound(st) && f in st.files
    ensures st.files[f].parent != Some(f)
  {
    var rank :| Ranked(ParentsOf(st), rank);
    assert ParentsOf(st)[f] == st.files[f].parent;
  }

  lemma GrantsLeftSound(st: Server, caller: User, f: Id, v: View, pub: Key, session: Session, revoked: User,
                        st': Server)
    requires ListsOnce(v) && f in st.files
    requires GrantsSound(st)
    requires AclVerdict(st, caller, f, Build(caller, v, pub, session, revoked)) == Ok
    requires IsCommitted(st, f, Build(caller, v, pub, session, revoked), st')
    ensures GrantsSound(st')
    ensures forall k :: k in st'.grants <==> k in st.grants && k != (f, revoked)
  {
    forall g: Id, u: User
      ensures (g, u) in st'.grants ==> GrantSound(st', g, u)
      ensures (g, u) in st'.grants <==> (g, u) in st.grants && (g, u) != (f, revoked)
    {
      CommittedGrant(st, caller, f, v, pub, session, revoked, st', g, u);
    }
    forall k: (Id, User)
      ensures k in st'.grants <==> k in st.grants && k != (f, revoked)
    {
      assert k == (k.0, k.1);
    }
  }

  lemma RowsLeftSound(st: Server, caller: User, f: Id, v: View, pub: Key, session: Session, revoked: User, st': Server)
    requires RowsSound(st)
    requires KeysDistinct(st) && Fresh(st, pub) && Owns(st, f, caller) && revoked != caller
    requires RowsCommitted(st, f, Build(caller, v, pub, session, revoked), st')
    requires forall k :: k in st'.grants <==> k in st.grants && k != (f, revoked)
    ensures RowsSound(st')
    ensures ParentsOf(st') == ParentsOf(st) && KeysDistinct(st')
  {
    forall g | g in st.files
      ensures RowSound(st', g) && st'.files[g].parent == st.files[g].parent
      ensures st'.files[g].pub == if g == f then pub else st.files[g].pub
    {
      assert RowSound(st, g);
      CommittedRows(st, caller, f, v, pub, session, revoked, st', g);
    }
  }

  /** After a commit only claims can be wrong. */
  lemma OnlyClaimsAreLeft(st: Server, caller: User, f: Id, v: View, pub: Key, session: Session, revoked: User,
                          st': Server)
    requires Sound(st) && Fresh(st, pub) && ListsOnce(v) && Owns(st, f, caller)
    requires AclVerdict(st, caller, f, Build(caller, v, pub, session, revoked)) == Ok
    requires IsCommitted(st, f, Build(caller, v, pub, session, revoked), st')
    ensures Sound(st') <==> ClaimsSound(st')
  {
    GrantsLeftSound(st, caller, f, v, pub, session, revoked, st');
    RowsLeftSound(st, caller, f, v, pub, session, revoked, st');
  }

  /** After a commit the claims that matter are the rotated row's own and its children's. */
  lemma ClaimsAfterCommit(st: Server, f: Id, p: Commit, st': Server)
    requires Sound(st) && f in st.files && RowsCommitted(st, f, p, st')
    ensures ClaimsSound(st') <==>
            ClaimSound(st', f) && forall c :: c in st.files && st.files[c].parent == Some(f) ==> ClaimSound(st', c)
  {
    forall g | g in st.files && g != f && st.files[g].parent != Some(f)
      ensures ClaimSound(st', g)
    {
      assert ClaimSound(st, g);
      OtherClaims(st, f, p, st', g);
    }
  }

  lemma CommitSucceeds(st: Server, caller: User, f: Id, v: View, pub: Key, session: Session, revoked: User)
    requires Sound(st) && ListsOnce(v) && Owns(st, f, caller)
    ensures var p := Build(caller, v, pub, session, revoked);
            !RepeatsUser(p) && IsCommitted(st, f, p, ExecuteAll(st, Statements(f, p)))
  {
    var p := Build(caller, v, pub, session, revoked);
    BuiltGrants(caller, pub, v.users, revoked);
    NotOwnParent(st, f);
    CommitEffect(st, f, p);
  }

  /**
   A folder commit that passes the exact-set checks leaves the database sound
   exactly when nothing the client had read has changed underneath it: neither the
   parent's key, nor any child's keys, and no upload into the folder is in flight.
   */
  lemma FolderCommitStaysSound(st: Server, caller: User, f: Id, v: View, pub: Key, session: Session, revoked: User)
    requires Sound(st) && Fresh(st, pub) && ListsOnce(v)
    requires FolderVerdict(st, caller, f, Build(caller, v, pub, session, revoked)) == Ok
    ensures CommitFolder(st, caller, f, Build(caller, v, pub, session, revoked)).0 == Ok
    ensures Sound(CommitFolder(st, caller, f, Build(caller, v, pub, session, revoked)).1) <==> ViewCurrent(st, f, v)
  {
    var p := Build(caller, v, pub, session, revoked);
    var st' := ExecuteAll(st, Statements(f, p));
    CommitSucceeds(st, caller, f, v, pub, session, revoked);
    OnlyClaimsAreLeft(st, caller, f, v, pub, session, revoked, st');
    ClaimsAfterCommit(st, f, p, st');
    NotOwnParent(st, f);
    assert ClaimSound(st, f);
    OwnClaim(st, caller, f, v, pub, session, revoked, st');
    ChildClaims(st, caller, f, v, pub, session, revoked, st');
  }

  lemma ChildClaims(st: Server, caller: User, f: Id, v: View, pub: Key, session: Session, revoked: User, st': Server)
    requires Sound(st) && Fresh(st, pub) && ListsOnce(v) && Owns(st, f, caller) && st.files[f].parent != Some(f)
    requires RowsCommitted(st, f, Build(caller, v, pub, session, revoked), st')
    requires CompleteChildren(st, f) == RewrapIds(Build(caller, v, pub, session, revoked))
    ensures (forall c :: c in st.files && st.files[c].parent == Some(f) ==> ClaimSound(st', c)) <==>
            ChildrenSeen(st, v) && NothingInFlight(st, f)
  {
    forall c | c in st.files && st.files[c].parent == Some(f)
      ensures ClaimSound(st', c) <==> SeenAs(v, c, TrueKeys(st.files[c]))
    {
      assert ClaimSound(st, c);
      ChildClaim(st, caller, f, v, pub, session, revoked, st', c);
    }
    ExactSetSeen(st, caller, f, v, pub, session, revoked);
  }

  predicate ListsChild(v: View, c: Id) {
    exists i :: 0 <= i < |v.children| && v.children[i].id == c
  }

  lemma BuiltIds(caller: User, v: View, pub: Key, session: Session, revoked: User, c: Id)
    ensures c in RewrapIds(Build(caller, v, pub, session, revoked)) <==> ListsChild(v, c)
  {
    var p := Build(caller, v, pub, session, revoked);
    if ListsChild(v, c) {
      var i :| 0 <= i < |v.children| && v.children[i].id == c;
      assert p.rewraps[i].id == c;
    }
  }

  /** With exactly the complete children listed, "all seen as they are" splits into the two conditions. */
  lemma ExactSetSeen(st: Server, caller: User, f: Id, v: View, pub: Key, session: Session, revoked: User)
    requires forall i, j :: 0 <= i < j < |v.children| ==> v.children[i].id != v.children[j].id
    requires CompleteChildren(st, f) == RewrapIds(Build(caller, v, pub, session, revoked))
    ensures (forall c :: c in st.files && st.files[c].parent == Some(f) ==> SeenAs(v, c, TrueKeys(st.files[c]))) <==>
            ChildrenSeen(st, v) && NothingInFlight(st, f)
  {
    forall c
      ensures c in CompleteChildren(st, f) <==> ListsChild(v, c)
    {
      BuiltIds(caller, v, pub, session, revoked, c);
    }
    if forall c :: c in st.files && st.files[c].parent == Some(f) ==> SeenAs(v, c, TrueKeys(st.files[c])) {
      SeenImpliesCurrent(st, f, v);
    }
    if ChildrenSeen(st, v) && NothingInFlight(st, f) {
      CurrentImpliesSeen(st, f, v);
    }
  }

  lemma SeenImpliesCurrent(st: Server, f: Id, v: View)
    requires forall i, j :: 0 <= i < j < |v.children| ==> v.children[i].id != v.children[j].id
    requires forall c :: c in CompleteChildren(st, f) <==> ListsChild(v, c)
    requires forall c :: c in st.files && st.files[c].parent == Some(f) ==> SeenAs(v, c, TrueKeys(st.files[c]))
    ensures ChildrenSeen(st, v) && NothingInFlight(st, f)
  {
    forall i | 0 <= i < |v.children|
      ensures v.children[i].id in st.files && v.children[i].keys == TrueKeys(st.files[v.children[i].id])
    {
      assert ListsChild(v, v.children[i].id);
      assert v.children[i].id in CompleteChildren(st, f);
      assert SeenAs(v, v.children[i].id, TrueKeys(st.files[v.children[i].id]));
    }
    forall c | c in st.files && st.files[c].parent == Some(f)
      ensures st.files[c].uploadComplete
    {
      assert SeenAs(v, c, TrueKeys(st.files[c]));
      assert ListsChild(v, c);
    }
  }

  lemma CurrentImpliesSeen(st: Server, f: Id, v: View)
    requires forall c :: c in CompleteChildren(st, f) <==> ListsChild(v, c)
    requires ChildrenSeen(st, v) && NothingInFlight(st, f)
    ensures forall c :: c in st.files && st.files[c].parent == Some(f) ==> SeenAs(v, c, TrueKeys(st.files[c]))
  {
    forall c | c in st.files && st.files[c].parent == Some(f)
      ensures SeenAs(v, c, TrueKeys(st.files[c]))
    {
      assert c in CompleteChildren(st, f);
      assert ListsChild(v, c);
      var i :| 0 <= i < |v.children| && v.children[i].id == c;
      assert v.children[i] == SeenChild(c, TrueKeys(st.files[c]));
    }
  }

  /** A file commit re-encrypts the file itself, so only the parent's key can be out of date. */
  lemma FileCommitStaysSound(st: Server, caller: User, f: Id, v: View, pub: Key, session: Session, revoked: User)
    requires Sound(st) && Fresh(st, pub) && ListsOnce(v) && v.children == []
    requires FileVerdict(st, caller, f, Build(caller, v, pub, session, revoked)) == Ok
    ensures CommitFile(st, caller, f, Build(caller, v, pub, session, revoked)).0 == Ok
    ensures Sound(CommitFile(st, caller, f, Build(caller, v, pub, session, revoked)).1) <==> ParentSeen(st, f, v)
  {
    var p := Build(caller, v, pub, session, revoked);
    assert p.(rewraps := []) == p;
    var st' := ExecuteAll(st, Statements(f, p));
    CommitSucceeds(st, caller, f, v, pub, session, revoked);
    OnlyClaimsAreLeft(st, caller, f, v, pub, session, revoked, st');
    ClaimsAfterCommit(st, f, p, st');
    NotOwnParent(st, f);
    assert ClaimSound(st, f);
    OwnClaim(st, caller, f, v, pub, session, revoked, st');
    forall c | c in st.files
      ensures st.files[c].parent != Some(f)
    {
      assert ClaimSound(st, c);
    }
  }

  /** A commit leaves the collaborators and the children of every other row as they are. */
  lemma ElsewhereUnchanged(st: Server, f: Id, p: Commit, st': Server, g: Id)
    requires IsCommitted(st, f, p, st') && g != f
    ensures UsersOn(st', g) == UsersOn(st, g) && CompleteChildren(st', g) == CompleteChildren(st, g)
    ensures g in st.files ==> st'.files[g].owner == st.files[g].owner && st'.files[g].isFolder == st.files[g].isFolder
  {
    forall u
      ensures u in UsersOn(st', g) <==> u in UsersOn(st, g)
    {
      OnIsGranted(st, g, u);
      OnIsGranted(st', g, u);
      assert GrantCommitted(st, f, p, st', (g, u));
    }
    forall c | c in st.files
      ensures st'.files[c].parent == st.files[c].parent && st'.files[c].uploadComplete == st.files[c].uploadComplete
      ensures st'.files[c].owner == st.files[c].owner && st'.files[c].isFolder == st.files[c].isFolder
    {
      assert st'.files[c] == RowAfter(st, f, p, c);
    }
  }

  lemma StaysFresh(st: Server, f: Id, p: Commit, st': Server, key: Key)
    requires RowsCommitted(st, f, p, st') && Fresh(st, key) && key != p.pub
    ensures Fresh(st', key)
  {
    forall g | g in st'.files
      ensures st'.files[g].pub != key
    {
      assert st'.files[g] == RowAfter(st, f, p, g);
    }
  }

  /** An accepted commit from a client's own lists runs to its end. */
  lemma CommitRuns(st: Server, caller: User, f: Id, v: View, pub: Key, session: Session, revoked: User)
    requires Sound(st) && ListsOnce(v) && Owns(st, f, caller)
    ensures CommitWith(Ok, st, f, Build(caller, v, pub, session, revoked)) ==
            (Ok, ExecuteAll(st, Statements(f, Build(caller, v, pub, session, revoked))))
  {
    CommitSucceeds(st, caller, f, v, pub, session, revoked);
  }
}
