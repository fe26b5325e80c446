/**
 The rotate-folder-commit route as it runs: a sequence of separate database statements,
 not one transaction. It is proved to have the combined effect described in KeyRotation,
 and to survive a crash at any point.
 */
module KeyServer {
  import opened Common
  import opened Forest
  import opened KeyTree
  import opened KeyCommits
  import opened KeyRotation
  import opened KeyWalk

  class Database {
    var files: map<Id, FileRow>
    var grants: map<(Id, User), Grant>

    function State(): Server
      reads this
    {
      Server(files, grants)
    }

    constructor ()
      ensures State() == Server(map[], map[])
    {
      files := map[];
      grants := map[];
    }

    method RotateFolderCommit(caller: User, f: Id, p: Commit) returns (outcome: Outcome)
      modifies this
      ensures (outcome, State()) == CommitFolder(old(State()), caller, f, p)
    {
      outcome := FolderVerdict(State(), caller, f, p);
      if outcome == Ok {
        outcome := ApplyCommit(f, p);
      }
    }

    method ApplyCommit(f: Id, p: Commit) returns (outcome: Outcome)
      requires f in files
      modifies this
      ensures (outcome, State()) == CommitWith(Ok, old(State()), f, p)
    {
      ghost var before := State();
      ghost var ss := Statements(f, p);
      // 1. The row.
      files := files[f := files[f].(pub := p.pub, sessionBox := p.sessionBox, metaKey := p.metaKey, claim := p.claim)];
      assert State() == Execute(before, ss[0]);
      // 2. The remaining collaborators, in one upsert.
      if exists i, j :: 0 <= i < j < |p.remaining| && p.remaining[i].user == p.remaining[j].user {
        return ServerError;
      }
      ghost var put := State();
      var n := 0;
      while n < |p.remaining|
        invariant n <= |p.remaining|
        invariant files == put.files
        invariant Upsert(State(), f, p.remaining[n..]) == Upsert(put, f, p.remaining)
      {
        assert p.remaining[n..][1..] == p.remaining[n + 1..];
        grants := grants[(f, p.remaining[n].user) := p.remaining[n].grant];
        n := n + 1;
      }
      assert p.remaining[|p.remaining|..] == [];
      // 3. The children, one statement each.
      ghost var granted := State();
      n := 0;
      while n < |p.rewraps|
        invariant n <= |p.rewraps|
        invariant grants == granted.grants
        invariant ExecuteAll(State(), RewrapStatements(f, p.rewraps[n..])) ==
                  ExecuteAll(granted, RewrapStatements(f, p.rewraps))
      {
        var r := p.rewraps[n];
        assert p.rewraps[n..][1..] == p.rewraps[n + 1..];
        assert RewrapStatements(f, p.rewraps[n..])[1..] == RewrapStatements(f, p.rewraps[n + 1..]);
        if r.id in files && files[r.id].parent == Some(f) {
          files := files[r.id := files[r.id].(claim := Some(r.claim))];
        }
        n := n + 1;
      }
      assert p.rewraps[|p.rewraps|..] == [];
      // 4. The revoked user, last.
      grants := grants - {(f, p.revoked)};
      StatementsInOrder(before, f, p);
      return Ok;
    }
  }

  // -------------------------------------------------------------------
  // Crash and retry
  // -------------------------------------------------------------------

  /** `mid` differs from `st` only in cells that the commit is about to write anyway. */
  ghost predicate PartWritten(st: Server, mid: Server, f: Id, p: Commit) {
    && mid.files.Keys == st.files.Keys
    && mid.grants.Keys == st.grants.Keys
    && (forall g :: g in st.files ==> PartRow(st.files[g], mid.files[g], f, p, g))
    && (forall k :: k in st.grants && mid.grants[k] != st.grants[k] ==> k.0 == f && GrantOf(p.remaining, k.1).Some?)
  }

  predicate PartRow(row: FileRow, mid: FileRow, f: Id, p: Commit, g: Id) {
    if g == f then mid == row.(pub := mid.pub, sessionBox := mid.sessionBox, metaKey := mid.metaKey, claim := mid.claim)
    else if row.parent == Some(f) && RewrapOf(p.rewraps, g).Some? then mid == row.(claim := mid.claim)
    else mid == row
  }

  lemma {:induction false} UpsertPart(st: Server, mid: Server, f: Id, p: Commit, i: nat)
    requires PartWritten(st, mid, f, p) && i <= |p.remaining|
    requires RemainingUsers(p) <= UsersOn(st, f)
    ensures PartWritten(st, Upsert(mid, f, p.remaining[i..]), f, p)
    decreases |p.remaining| - i
  {
    if i < |p.remaining| {
      var u := p.remaining[i].user;
      assert u in RemainingUsers(p);
      OnIsGranted(st, f, u);
      GrantOfMember(p.remaining, u);
      assert p.remaining[i..][1..] == p.remaining[i + 1..];
      UpsertPart(st, mid.(grants := mid.grants[(f, u) := p.remaining[i].grant]), f, p, i + 1);
    }
  }

  lemma PutRowKeepsPart(st: Server, mid: Server, f: Id, p: Commit)
    requires PartWritten(st, mid, f, p) && f in st.files
    ensures PartWritten(st, Execute(mid, Statements(f, p)[0]), f, p)
  {
  }

  lemma PutClaimKeepsPart(st: Server, mid: Server, f: Id, p: Commit, r: Rewrap)
    requires PartWritten(st, mid, f, p) && f in st.files && st.files[f].parent != Some(f)
    requires RewrapOf(p.rewraps, r.id).Some?
    ensures PartWritten(st, Execute(mid, PutClaim(f, r)), f, p)
  {
    var mid' := Execute(mid, PutClaim(f, r));
    assert forall g :: g in st.files && g != r.id ==> mid'.files[g] == mid.files[g];
    assert r.id in st.files ==> PartRow(st.files[r.id], mid.files[r.id], f, p, r.id);
  }

  lemma StatementKeepsPart(st: Server, mid: Server, f: Id, p: Commit, i: nat)
    requires PartWritten(st, mid, f, p) && f in st.files && st.files[f].parent != Some(f)
    requires RemainingUsers(p) <= UsersOn(st, f)
    requires i < |Statements(f, p)| - 1
    ensures PartWritten(st, Execute(mid, Statements(f, p)[i]), f, p)
  {
    if i == 0 {
      PutRowKeepsPart(st, mid, f, p);
    } else if i == 1 {
      assert p.remaining[0..] == p.remaining;
      UpsertPart(st, mid, f, p, 0);
    } else {
      RewrapOfMember(p.rewraps, p.rewraps[i - 2].id);
      PutClaimKeepsPart(st, mid, f, p, p.rewraps[i - 2]);
    }
  }

  lemma {:induction false} PrefixIsPart(st: Server, f: Id, p: Commit, i: nat)
    requires f in st.files && st.files[f].parent != Some(f) && RemainingUsers(p) <= UsersOn(st, f)
    requires i < |Statements(f, p)|
    ensures PartWritten(st, ExecuteAll(st, Statements(f, p)[..i]), f, p)
    decreases i
  {
    if i > 0 {
      var ss := Statements(f, p);
      PrefixIsPart(st, f, p, i - 1);
      assert ss[..i] == ss[..i - 1] + [ss[i - 1]];
      ExecuteAllAppend(st, ss[..i - 1], [ss[i - 1]]);
      var mid := ExecuteAll(st, ss[..i - 1]);
      assert [ss[i - 1]][1..] == [];
      assert ExecuteAll(mid, [ss[i - 1]]) == ExecuteAll(Execute(mid, ss[i - 1]), []);
      StatementKeepsPart(st, mid, f, p, i - 1);
    }
  }

  /** The commit overwrites everything in which the two states may differ. */
  lemma PartConverges(st: Server, mid: Server, f: Id, p: Commit)
    requires PartWritten(st, mid, f, p) && f in st.files && st.files[f].parent != Some(f)
    ensures ExecuteAll(mid, Statements(f, p)) == ExecuteAll(st, Statements(f, p))
  {
    var a, b := ExecuteAll(st, Statements(f, p)), ExecuteAll(mid, Statements(f, p));
    CommitEffect(st, f, p);
    assert PartRow(st.files[f], mid.files[f], f, p, f);
    CommitEffect(mid, f, p);
    forall g | g in st.files
      ensures a.files[g] == b.files[g]
    {
      assert PartRow(st.files[g], mid.files[g], f, p, g);
    }
    forall k: (Id, User)
      ensures k in a.grants <==> k in b.grants
      ensures k in a.grants ==> a.grants[k] == b.grants[k]
    {
      assert GrantCommitted(st, f, p, a, k) && GrantCommitted(mid, f, p, b, k);
    }
    assert a.files == b.files && a.grants == b.grants;
  }

  lemma PartPassesChecks(st: Server, mid: Server, caller: User, f: Id, p: Commit)
    requires PartWritten(st, mid, f, p) && f in st.files
    ensures FolderVerdict(mid, caller, f, p) == FolderVerdict(st, caller, f, p)
  {
    assert UsersOn(mid, f) == UsersOn(st, f);
    forall g | g in st.files
      ensures mid.files[g].parent == st.files[g].parent && mid.files[g].uploadComplete == st.files[g].uploadComplete
      ensures mid.files[g].owner == st.files[g].owner && mid.files[g].isFolder == st.files[g].isFolder
    {
      assert PartRow(st.files[g], mid.files[g], f, p, g);
    }
    assert CompleteChildren(mid, f) == CompleteChildren(st, f);
  }

  /**
   If the commit stops after any number of its statements, sending the same request
   again is accepted and ends in the state the uninterrupted commit would have
   reached. Only once the last statement has run is a retry refused, with a conflict,
   and then that state is already there.
   */
  lemma RetryAfterCrashConverges(st: Server, caller: User, f: Id, p: Commit, done: nat)
    requires f in st.files && st.files[f].parent != Some(f)
    requires FolderVerdict(st, caller, f, p) == Ok && !RepeatsUser(p) && done <= |Statements(f, p)|
    ensures var crashed := ExecuteAll(st, Statements(f, p)[..done]);
            if done < |Statements(f, p)| then CommitFolder(crashed, caller, f, p) == CommitFolder(st, caller, f, p)
            else crashed == CommitFolder(st, caller, f, p).1
                 && CommitFolder(crashed, caller, f, p) == (Conflict, crashed)
  {
    var ss := Statements(f, p);
    var crashed := ExecuteAll(st, ss[..done]);
    if done < |ss| {
      PrefixIsPart(st, f, p, done);
      PartPassesChecks(st, crashed, caller, f, p);
      PartConverges(st, crashed, f, p);
    } else {
      assert ss[..done] == ss;
      CommitEffect(st, f, p);
      assert GrantCommitted(st, f, p, crashed, (f, p.revoked));
      OnIsGranted(crashed, f, p.revoked);
      assert crashed.files[f] == RowAfter(st, f, p, f);
    }
  }

  // -------------------------------------------------------------------
  // What opens while the commit is under way
  // -------------------------------------------------------------------

  lemma StateMidway(st: Server, f: Id, p: Commit, i: nat)
    requires i <= |p.rewraps|
    ensures ExecuteAll(st, Statements(f, p)[..2 + i]) ==
            ExecuteAll(Upsert(Execute(st, Statements(f, p)[0]), f, p.remaining), RewrapStatements(f, p.rewraps[..i]))
  {
    var ss := Statements(f, p);
    var st1 := Execute(st, ss[0]);
    assert ss[..2 + i] == ss[..2] + RewrapStatements(f, p.rewraps[..i]);
    ExecuteAllAppend(st, ss[..2], RewrapStatements(f, p.rewraps[..i]));
    assert ss[..2][1..] == [ss[1]] && [ss[1]][1..] == [];
    assert ExecuteAll(st1, [ss[1]]) == ExecuteAll(Execute(st1, ss[1]), []);
  }

  /** Rows and grants at that point: as after a commit that rewraps only the first `i` children, nobody revoked yet. */
  lemma CellsMidway(st: Server, f: Id, p: Commit, i: nat, g: Id, u: User) returns (mid: Server)
    requires f in st.files && st.files[f].parent != Some(f) && i <= |p.rewraps|
    ensures mid == ExecuteAll(st, Statements(f, p)[..2 + i])
    ensures mid.files.Keys == st.files.Keys
    ensures g in st.files ==> mid.files[g] == RowAfter(st, f, p.(rewraps := p.rewraps[..i]), g)
    ensures GrantOf(p.remaining, u).Some? ==>
              (f, u) in mid.grants && mid.grants[(f, u)] == GrantOf(p.remaining, u).value
    ensures GrantOf(p.remaining, u).None? ==>
              ((f, u) in mid.grants <==> (f, u) in st.grants)
              && ((f, u) in st.grants ==> mid.grants[(f, u)] == st.grants[(f, u)])
  {
    var st1 := Execute(st, Statements(f, p)[0]);
    mid := ExecuteAll(Upsert(st1, f, p.remaining), RewrapStatements(f, p.rewraps[..i]));
    StateMidway(st, f, p, i);
    UpsertEffect(st1, f, p.remaining, (f, u));
    RewrapEffect(Upsert(st1, f, p.remaining), f, p.rewraps[..i], g);
  }

  /** With the row written and the grants not yet, it opens for nobody who goes by a grant on it. */
  lemma NobodyOpensAfterTheFirstStatement(st: Server, f: Id, p: Commit, u: User)
    requires Sound(st) && f in st.files && Fresh(st, p.pub) && p.sessionBox.recipient == p.pub
    ensures var mid := ExecuteAll(st, Statements(f, p)[..1]);
            && mid == Execute(st, Statements(f, p)[0])
            && f in mid.files && OpenNode(mid, u, f, None) == None
  {
    var ss := Statements(f, p);
    assert ss[..1][1..] == [];
    assert ExecuteAll(st, ss[..1]) == ExecuteAll(Execute(st, ss[0]), []);
    if (f, u) in st.grants {
      assert GrantSound(st, f, u);
    }
  }

  lemma OpensByGrant(mid: Server, u: User, f: Id, session: Session, pub: Key)
    requires f in mid.files && (f, u) in mid.grants
    requires Unseal(mid.grants[(f, u)].box, mid.grants[(f, u)].wrappedBy, UserKey(u)) == Some(pub)
    requires mid.files[f].sessionBox == Sealed(session, UserKey(mid.files[f].owner), pub)
    ensures OpenNode(mid, u, f, None) == Some(Keys(session, pub))
  {
  }

  lemma OpensNotByOldGrant(mid: Server, u: User, f: Id, priv: Key)
    requires f in mid.files && (f, u) in mid.grants
    requires Unseal(mid.grants[(f, u)].box, mid.grants[(f, u)].wrappedBy, UserKey(u)) == Some(priv)
    requires mid.files[f].sessionBox.recipient != priv
    ensures OpenNode(mid, u, f, None) == None
  {
  }

  lemma NewGrants(st: Server, caller: User, f: Id, v: View, pub: Key, session: Session, revoked: User, u: User)
    requires AclVerdict(st, caller, f, Build(caller, v, pub, session, revoked)) == Ok
    ensures var given := GrantOf(BuildGrants(caller, pub, v.users, revoked), u);
            && (given.Some? <==> (f, u) in st.grants && u != revoked)
            && (given.Some? ==> Unseal(given.value.box, given.value.wrappedBy, UserKey(u)) == Some(pub))
  {
    var p := Build(caller, v, pub, session, revoked);
    BuiltGrants(caller, pub, v.users, revoked);
    GrantOfMember(p.remaining, u);
    OnIsGranted(st, f, u);
    assert u in RemainingUsers(p) <==> GrantOf(p.remaining, u).Some?;
  }

  /** From the second statement on it opens, under its new keys, for exactly the users who remain. */
  lemma RemainingUsersOpenTheFolder(st: Server, caller: User, f: Id, v: View, pub: Key, session: Session, revoked: User,
                                    i: nat, u: User)
    requires Sound(st) && Fresh(st, pub) && Owns(st, f, caller)
    requires AclVerdict(st, caller, f, Build(caller, v, pub, session, revoked)) == Ok
    requires i <= |v.children|
    ensures var mid := ExecuteAll(st, Statements(f, Build(caller, v, pub, session, revoked))[..2 + i]);
            && f in mid.files
            && OpenNode(mid, u, f, None) ==
               if (f, u) in st.grants && u != revoked then Some(Keys(session, pub)) else None
  {
    var p := Build(caller, v, pub, session, revoked);
    NotOwnParent(st, f);
    var mid := CellsMidway(st, f, p, i, f, u);
    NewGrants(st, caller, f, v, pub, session, revoked, u);
    assert mid.files[f].pub == pub && mid.files[f].sessionBox == Sealed(session, UserKey(caller), pub);
    assert mid.files[f].owner == caller;
    if (f, u) in st.grants && u != revoked {
      OpensByGrant(mid, u, f, session, pub);
    } else if (f, u) in st.grants {
      assert GrantSound(st, f, u) && st.files[f].pub != pub;
      OpensNotByOldGrant(mid, u, f, st.files[f].pub);
    }
  }

  /** Of the children, those whose turn has come open under the new key and the others do not. */
  lemma ChildrenOpenOneByOne(st: Server, caller: User, f: Id, v: View, pub: Key, session: Session, revoked: User,
                             i: nat, j: nat)
    requires Sound(st) && Fresh(st, pub) && ListsOnce(v) && Owns(st, f, caller)
    requires i <= |v.children| && j < |v.children| && v.children[j].id in st.files
    requires st.files[v.children[j].id].parent == Some(f) && v.children[j].keys == TrueKeys(st.files[v.children[j].id])
    ensures var mid := ExecuteAll(st, Statements(f, Build(caller, v, pub, session, revoked))[..2 + i]);
            v.children[j].id in mid.files && (ClaimSound(mid, v.children[j].id) <==> j < i)
  {
    var p, c := Build(caller, v, pub, session, revoked), v.children[j].id;
    var part := v.(children := v.children[..i]);
    NotOwnParent(st, f);
    assert Build(caller, part, pub, session, revoked) == p.(rewraps := p.rewraps[..i]);
    var mid := CellsMidway(st, f, p, i, c, caller);
    forall g | g in st.files
      ensures mid.files[g] == RowAfter(st, f, p.(rewraps := p.rewraps[..i]), g)
    {
      var again := CellsMidway(st, f, p, i, g, caller);
    }
    assert ClaimSound(st, c);
    ChildClaim(st, caller, f, part, pub, session, revoked, mid, c);
    if j < i {
      assert part.children[j] == v.children[j];
    }
  }

  // -------------------------------------------------------------------
  // A share between the statements
  // -------------------------------------------------------------------

  function WithGrant(st: Server, k: (Id, User), g: Grant): Server {
    st.(grants := st.grants[k := g])
  }

  predicate NamesUser(gs: seq<NewGrant>, u: User) {
    exists i :: 0 <= i < |gs| && gs[i].user == u
  }

  predicate Touches(s: Statement, k: (Id, User)) {
    (s.PutGrants? && s.f == k.0 && NamesUser(s.grants, k.1)) || (s.RemoveGrant? && (s.f, s.user) == k)
  }

  lemma {:induction false} UpsertCommutes(st: Server, f: Id, gs: seq<NewGrant>, k: (Id, User), g: Grant)
    requires f == k.0 ==> !NamesUser(gs, k.1)
    ensures Upsert(WithGrant(st, k, g), f, gs) == WithGrant(Upsert(st, f, gs), k, g)
    ensures k in Upsert(st, f, gs).grants <==> k in st.grants
    decreases |gs|
  {
    if gs != [] {
      var k0 := (f, gs[0].user);
      assert k0 != k;
      assert st.grants[k := g][k0 := gs[0].grant] == st.grants[k0 := gs[0].grant][k := g];
      assert forall i :: 0 <= i < |gs[1..]| ==> gs[1..][i] == gs[i + 1];
      UpsertCommutes(st.(grants := st.grants[k0 := gs[0].grant]), f, gs[1..], k, g);
    }
  }

  lemma StatementCommutes(st: Server, s: Statement, k: (Id, User), g: Grant)
    requires !Touches(s, k)
    ensures Execute(WithGrant(st, k, g), s) == WithGrant(Execute(st, s), k, g)
    ensures k in Execute(st, s).grants <==> k in st.grants
  {
    if s.PutGrants? {
      UpsertCommutes(st, s.f, s.grants, k, g);
    } else if s.RemoveGrant? {
      assert st.grants[k := g] - {(s.f, s.user)} == (st.grants - {(s.f, s.user)})[k := g];
    }
  }

  lemma {:induction false} StatementsCommute(st: Server, ss: seq<Statement>, k: (Id, User), g: Grant)
    requires forall i :: 0 <= i < |ss| ==> !Touches(ss[i], k)
    ensures ExecuteAll(WithGrant(st, k, g), ss) == WithGrant(ExecuteAll(st, ss), k, g)
    ensures k in ExecuteAll(st, ss).grants <==> k in st.grants
    decreases |ss|
  {
    if ss != [] {
      StatementCommutes(st, ss[0], k, g);
      StatementsCommute(Execute(st, ss[0]), ss[1..], k, g);
    }
  }

  /** The statements touch the grants of nobody but those who had one when the checks ran. */
  lemma NoStatementTouchesOthers(st: Server, f: Id, p: Commit, u: User)
    requires UsersOn(st, f) == RemainingUsers(p) + {p.revoked} && (f, u) !in st.grants
    ensures forall i :: 0 <= i < |Statements(f, p)| ==> !Touches(Statements(f, p)[i], (f, u))
  {
    OnIsGranted(st, f, u);
    assert NamesUser(p.remaining, u) ==> u in RemainingUsers(p);
  }

  /** A grant that appears before any of the statements is there after the last, and changes nothing else. */
  lemma GrantInTheMiddle(st: Server, f: Id, p: Commit, done: nat, u: User, g: Grant)
    requires UsersOn(st, f) == RemainingUsers(p) + {p.revoked} && (f, u) !in st.grants
    requires done <= |Statements(f, p)|
    ensures var ss, mid := Statements(f, p), ExecuteAll(st, Statements(f, p)[..done]);
            && (f, u) !in mid.grants
            && ExecuteAll(WithGrant(mid, (f, u), g), ss[done..]) == WithGrant(ExecuteAll(st, ss), (f, u), g)
  {
    var ss := Statements(f, p);
    NoStatementTouchesOthers(st, f, p, u);
    StatementsCommute(st, ss[..done], (f, u), g);
    StatementsCommute(ExecuteAll(st, ss[..done]), ss[done..], (f, u), g);
    assert ss == ss[..done] + ss[done..];
    ExecuteAllAppend(st, ss[..done], ss[done..]);
  }

  /**
   The checks are of no use against what comes after them. A share with a new user that
   lands before any of the statements, by a client that has the key from before, leaves
   the complete result of the commit and a grant that does not open.
   */
  lemma ShareInTheMiddleGoesStale(st: Server, caller: User, f: Id, p: Commit, r: ShareRequest, done: nat)
    requires Sound(st) && Fresh(st, p.pub) && FolderVerdict(st, caller, f, p) == Ok && !RepeatsUser(p)
    requires done <= |Statements(f, p)| && r.file == f && (f, r.recipient) !in st.grants
    requires r.seenPriv == st.files[f].pub
    requires ShareVerdict(ExecuteAll(st, Statements(f, p)[..done]), r) == Ok
    ensures var mid := ExecuteAll(st, Statements(f, p)[..done]);
            var k, g := (f, r.recipient), SealGrant(r.seenPriv, r.caller, r.recipient, ShareLevel(mid, r));
            && ExecuteAll(Share(mid, r), Statements(f, p)[done..]) == WithGrant(CommitFolder(st, caller, f, p).1, k, g)
            && !GrantSound(WithGrant(CommitFolder(st, caller, f, p).1, k, g), f, r.recipient)
  {
    var ss, k := Statements(f, p), (f, r.recipient);
    var mid := ExecuteAll(st, ss[..done]);
    var g := SealGrant(r.seenPriv, r.caller, r.recipient, ShareLevel(mid, r));
    GrantInTheMiddle(st, f, p, done, r.recipient, g);
    assert Share(mid, r) == WithGrant(mid, k, g);
    NotOwnParent(st, f);
    CommitEffect(st, f, p);
    assert ExecuteAll(st, ss).files[f] == RowAfter(st, f, p, f);
  }
}
