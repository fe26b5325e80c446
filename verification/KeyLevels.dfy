/**
 What rotations do to permissions, and who owns and who reads a file in the course of
 whole runs.
 */
module KeyLevels {
  import opened Common
  import opened Forest
  import opened KeyTree
  import opened KeyWalk
  import opened KeyCommits
  import opened KeyRotation
  import opened KeyAccess
  import opened KeyRuns
  import opened KeyPermissions

  // -------------------------------------------------------------------
  // What a rotation is answered
  // -------------------------------------------------------------------

  predicate Remains(p: Commit, u: User) {
    exists i :: 0 <= i < |p.remaining| && p.remaining[i].user == u
  }

  predicate HasRewrap(p: Commit, c: Id) {
    exists i :: 0 <= i < |p.rewraps| && p.rewraps[i].id == c
  }

  /** The grants on the row are those of the users listed and of the one to be revoked, no more and no fewer. */
  ghost predicate ListsGrants(st: Server, f: Id, p: Commit) {
    forall u: User :: (f, u) in st.grants <==> Remains(p, u) || u == p.revoked
  }

  /** The rewraps are those of the finished children, no more and no fewer. */
  ghost predicate ListsChildren(st: Server, f: Id, p: Commit) {
    forall c: Id ::
      c in st.files && st.files[c].parent == Some(f) && st.files[c].uploadComplete <==> HasRewrap(p, c)
  }

  lemma SetsListed(st: Server, f: Id, p: Commit)
    ensures UsersOn(st, f) == RemainingUsers(p) + {p.revoked} <==> ListsGrants(st, f, p)
    ensures CompleteChildren(st, f) == RewrapIds(p) <==> ListsChildren(st, f, p)
    ensures forall u :: u in RemainingUsers(p) <==> Remains(p, u)
  {
    forall u: User
      ensures u in UsersOn(st, f) <==> (f, u) in st.grants
      ensures u in RemainingUsers(p) <==> Remains(p, u)
    {
      OnIsGranted(st, f, u);
    }
    forall c: Id
      ensures c in RewrapIds(p) <==> HasRewrap(p, c)
    {
    }
    if ListsGrants(st, f, p) {
      assert forall u :: u in UsersOn(st, f) <==> u in RemainingUsers(p) + {p.revoked};
    }
    if ListsChildren(st, f, p) {
      assert forall c :: c in CompleteChildren(st, f) <==> c in RewrapIds(p);
    }
  }

  /**
   Only the owner rotates, and only away from someone else who is not listed as remaining
   while the owner is; a list that is not the current one is a conflict.
   */
  lemma RotationOutcomes(st: Server, caller: User, f: Id, p: Commit)
    ensures var own := f in st.files && st.files[f].owner == caller;
            var sane := Remains(p, caller) && !Remains(p, p.revoked);
            && (!own ==> FileVerdict(st, caller, f, p) == NotFound && FolderVerdict(st, caller, f, p) == NotFound)
            && (own && st.files[f].isFolder ==> FileVerdict(st, caller, f, p) == BadRequest)
            && (own && !st.files[f].isFolder ==> FolderVerdict(st, caller, f, p) == BadRequest)
            && (own && !st.files[f].isFolder ==>
                  FileVerdict(st, caller, f, p) ==
                  if p.revoked == caller then BadRequest
                  else if !ListsGrants(st, f, p) then Conflict else if !sane then BadRequest else Ok)
            && (own && st.files[f].isFolder ==>
                  FolderVerdict(st, caller, f, p) ==
                  if p.revoked == caller then BadRequest
                  else if !ListsGrants(st, f, p) then Conflict else if !sane then BadRequest
                  else if !ListsChildren(st, f, p) then Conflict else Ok)
  {
    SetsListed(st, f, p);
  }

  function AllButLast(p: Commit): Commit
    requires p.remaining != []
  {
    p.(remaining := p.remaining[..|p.remaining| - 1])
  }

  lemma UsersOfFront(p: Commit)
    requires p.remaining != []
    ensures var last := p.remaining[|p.remaining| - 1].user;
            && RemainingUsers(p) == RemainingUsers(AllButLast(p)) + {last}
            && (last in RemainingUsers(AllButLast(p)) <==> Remains(AllButLast(p), last))
  {
  }

  lemma RepeatsOfFront(p: Commit)
    requires p.remaining != []
    ensures RepeatsUser(p) <==>
            RepeatsUser(AllButLast(p)) || Remains(AllButLast(p), p.remaining[|p.remaining| - 1].user)
  {
    var n, front := |p.remaining| - 1, AllButLast(p);
    assert forall i :: 0 <= i < n ==> front.remaining[i] == p.remaining[i];
    if RepeatsUser(p) {
      var i, j :| 0 <= i < j <= n && p.remaining[i].user == p.remaining[j].user;
      if j < n {
        assert front.remaining[i].user == front.remaining[j].user;
      } else {
        assert front.remaining[i].user == p.remaining[n].user;
      }
    }
  }

  lemma {:induction false} UsersCounted(p: Commit)
    ensures |RemainingUsers(p)| <= |p.remaining|
    ensures RepeatsUser(p) <==> |RemainingUsers(p)| < |p.remaining|
    decreases |p.remaining|
  {
    if p.remaining == [] {
      assert RemainingUsers(p) == {};
    } else {
      UsersCounted(AllButLast(p));
      UsersOfFront(p);
      RepeatsOfFront(p);
    }
  }

  /**
   A request that passes the checks but lists a user twice fails at the grants, with the
   row already under its new keys; every other one that passes goes through.
   */
  lemma RepeatedUserFails(st: Server, caller: User, f: Id, p: Commit)
    requires FolderVerdict(st, caller, f, p) == Ok
    ensures CommitFolder(st, caller, f, p).0 ==
            if |RemainingUsers(p)| < |p.remaining| then ServerError else Ok
    ensures |RemainingUsers(p)| < |p.remaining| ==>
              var st' := CommitFolder(st, caller, f, p).1;
              && st'.grants == st.grants && st'.files.Keys == st.files.Keys
              && (forall g :: g in st.files && g != f ==> st'.files[g] == st.files[g])
              && st'.files[f].pub == p.pub && st'.files[f].sessionBox == p.sessionBox
  {
    UsersCounted(p);
  }

  // -------------------------------------------------------------------
  // Levels after a rotation
  // -------------------------------------------------------------------

  /** The remaining users hold the levels the client listed; the revoked user's grant is gone; other grants stay. */
  lemma LevelsAfterCommit(st: Server, caller: User, f: Id, v: View, pub: Key, session: Session, revoked: User,
                          g: Id, u: User)
    requires Sound(st) && ListsOnce(v) && Owns(st, f, caller)
    requires AclVerdict(st, caller, f, Build(caller, v, pub, session, revoked)) == Ok
    ensures var st' := ExecuteAll(st, Statements(f, Build(caller, v, pub, session, revoked)));
            && ((g, u) in st'.grants <==> (g, u) in st.grants && (g, u) != (f, revoked))
            && (g != f ==> GrantAt(st', g, u) == GrantAt(st, g, u))
            && ((f, u) in st.grants && u != revoked ==>
                  (f, u) in st'.grants && SeenUser(u, st'.grants[(f, u)].level) in v.users)
  {
    var p := Build(caller, v, pub, session, revoked);
    var st' := ExecuteAll(st, Statements(f, p));
    CommitSucceeds(st, caller, f, v, pub, session, revoked);
    GrantsLeftSound(st, caller, f, v, pub, session, revoked, st');
    assert GrantCommitted(st, f, p, st', (g, u)) && GrantCommitted(st, f, p, st', (f, u));
    BuiltGrants(caller, pub, v.users, revoked);
    GrantOfMember(p.remaining, u);
    OnIsGranted(st, f, u);
    assert u in RemainingUsers(p) <==> GrantOf(p.remaining, u).Some?;
  }

  /** The levels listed for those who remain are the current ones. */
  predicate LevelsSeen(st: Server, f: Id, v: View, revoked: User) {
    forall i :: 0 <= i < |v.users| && v.users[i].user != revoked && (f, v.users[i].user) in st.grants ==>
      v.users[i].level == st.grants[(f, v.users[i].user)].level
  }

  /** Places are the same, and so are all levels, but one grant is gone. */
  ghost predicate LevelsMatch(st: Server, st': Server, f: Id, revoked: User) {
    && ParentsOf(st') == ParentsOf(st)
    && forall g: Id, u: User ::
         && ((g, u) in st'.grants <==> (g, u) in st.grants && (g, u) != (f, revoked))
         && ((g, u) in st'.grants ==> st'.grants[(g, u)].level == st.grants[(g, u)].level)
  }

  lemma {:induction false} PermissionsMatch(st: Server, st': Server, f: Id, revoked: User, g: Id, u: User, limit: nat)
    requires LevelsMatch(st, st', f, revoked)
    ensures EffectiveLevel(st', g, u, limit) ==
            EffectiveLevel(if u == revoked then DropGrant(st, f, revoked) else st, g, u, limit)
    decreases limit
  {
    assert g in st.files <==> g in ParentsOf(st);
    assert g in st'.files <==> g in ParentsOf(st');
    if g in st.files {
      assert st'.files[g].parent == ParentsOf(st')[g] == st.files[g].parent;
      if limit > 0 && st.files[g].parent.Some? {
        PermissionsMatch(st, st', f, revoked, st.files[g].parent.value, u, limit - 1);
      }
    }
  }

  lemma CommitMatchesLevels(st: Server, caller: User, f: Id, v: View, pub: Key, session: Session, revoked: User)
    requires Sound(st) && Fresh(st, pub) && ListsOnce(v) && Owns(st, f, caller)
    requires AclVerdict(st, caller, f, Build(caller, v, pub, session, revoked)) == Ok && LevelsSeen(st, f, v, revoked)
    ensures LevelsMatch(st, ExecuteAll(st, Statements(f, Build(caller, v, pub, session, revoked))), f, revoked)
  {
    var st' := ExecuteAll(st, Statements(f, Build(caller, v, pub, session, revoked)));
    CommitRotates(st, caller, f, v, pub, session, revoked);
    forall g: Id, u: User
      ensures (g, u) in st'.grants <==> (g, u) in st.grants && (g, u) != (f, revoked)
      ensures (g, u) in st'.grants ==> st'.grants[(g, u)].level == st.grants[(g, u)].level
    {
      LevelsAfterCommit(st, caller, f, v, pub, session, revoked, g, u);
    }
  }

  /** Nobody but the revoked user has another permission than before, on any row. */
  ghost predicate SamePermissions(st: Server, st': Server, revoked: User) {
    forall g: Id, u: User :: u != revoked ==> EffectiveLevel(st', g, u) == EffectiveLevel(st, g, u)
  }

  lemma SeenLevelsKeepPermissions(st: Server, caller: User, f: Id, v: View, pub: Key, session: Session, revoked: User)
    requires Sound(st) && Fresh(st, pub) && ListsOnce(v) && Owns(st, f, caller)
    requires AclVerdict(st, caller, f, Build(caller, v, pub, session, revoked)) == Ok && LevelsSeen(st, f, v, revoked)
    ensures SamePermissions(st, ExecuteAll(st, Statements(f, Build(caller, v, pub, session, revoked))), revoked)
  {
    var st' := ExecuteAll(st, Statements(f, Build(caller, v, pub, session, revoked)));
    CommitMatchesLevels(st, caller, f, v, pub, session, revoked);
    forall g: Id, u: User | u != revoked
      ensures EffectiveLevel(st', g, u) == EffectiveLevel(st, g, u)
    {
      PermissionsMatch(st, st', f, revoked, g, u, MAX_DEPTH);
    }
  }

  /**
   An accepted commit of either route leaves everyone's permission on every row as it
   was, except for the revoked user, exactly if the levels it lists are the current ones.
   */
  lemma CommitKeepsPermissions(st: Server, caller: User, f: Id, v: View, pub: Key, session: Session, revoked: User)
    requires Sound(st) && Fresh(st, pub) && ListsOnce(v) && Owns(st, f, caller)
    requires AclVerdict(st, caller, f, Build(caller, v, pub, session, revoked)) == Ok
    ensures var st' := ExecuteAll(st, Statements(f, Build(caller, v, pub, session, revoked)));
            SamePermissions(st, st', revoked) <==> LevelsSeen(st, f, v, revoked)
  {
    var st' := ExecuteAll(st, Statements(f, Build(caller, v, pub, session, revoked)));
    if LevelsSeen(st, f, v, revoked) {
      SeenLevelsKeepPermissions(st, caller, f, v, pub, session, revoked);
    }
    if SamePermissions(st, st', revoked) {
      forall i | 0 <= i < |v.users| && v.users[i].user != revoked && (f, v.users[i].user) in st.grants
        ensures v.users[i].level == st.grants[(f, v.users[i].user)].level
      {
        var u := v.users[i].user;
        LevelsAfterCommit(st, caller, f, v, pub, session, revoked, f, u);
        assert EffectiveLevel(st', f, u) == EffectiveLevel(st, f, u);
      }
    }
  }

  /** What is left to the revoked user is what the other grants give. */
  lemma FolderRotationKeepsPermissions(st: Server, caller: User, f: Id, v: View, pub: Key, session: Session,
                                       revoked: User, g: Id)
    requires Sound(st) && Fresh(st, pub) && ListsOnce(v)
    requires FolderVerdict(st, caller, f, Build(caller, v, pub, session, revoked)) == Ok
    ensures var st' := CommitFolder(st, caller, f, Build(caller, v, pub, session, revoked)).1;
            && (SamePermissions(st, st', revoked) <==> LevelsSeen(st, f, v, revoked))
            && (LevelsSeen(st, f, v, revoked) ==>
                  EffectiveLevel(st', g, revoked) == EffectiveLevel(DropGrant(st, f, revoked), g, revoked))
  {
    CommitRuns(st, caller, f, v, pub, session, revoked);
    CommitKeepsPermissions(st, caller, f, v, pub, session, revoked);
    if LevelsSeen(st, f, v, revoked) {
      CommitMatchesLevels(st, caller, f, v, pub, session, revoked);
      var st' := ExecuteAll(st, Statements(f, Build(caller, v, pub, session, revoked)));
      PermissionsMatch(st, st', f, revoked, g, revoked, MAX_DEPTH);
    }
  }

  lemma FileRotationKeepsPermissions(st: Server, caller: User, f: Id, v: View, pub: Key, session: Session,
                                     revoked: User, g: Id)
    requires Sound(st) && Fresh(st, pub) && ListsOnce(v) && v.children == []
    requires FileVerdict(st, caller, f, Build(caller, v, pub, session, revoked)) == Ok
    ensures var st' := CommitFile(st, caller, f, Build(caller, v, pub, session, revoked)).1;
            && (SamePermissions(st, st', revoked) <==> LevelsSeen(st, f, v, revoked))
            && (LevelsSeen(st, f, v, revoked) ==>
                  EffectiveLevel(st', g, revoked) == EffectiveLevel(DropGrant(st, f, revoked), g, revoked))
  {
    var p := Build(caller, v, pub, session, revoked);
    assert p.(rewraps := []) == p;
    CommitRuns(st, caller, f, v, pub, session, revoked);
    CommitKeepsPermissions(st, caller, f, v, pub, session, revoked);
    if LevelsSeen(st, f, v, revoked) {
      CommitMatchesLevels(st, caller, f, v, pub, session, revoked);
      PermissionsMatch(st, ExecuteAll(st, Statements(f, p)), f, revoked, g, revoked, MAX_DEPTH);
    }
  }

  lemma LevelsListed(st: Server, caller: User, f: Id, v: View, pub: Key, session: Session, revoked: User, u: User)
    requires Sound(st) && ListsOnce(v) && (f, u) in st.grants && u != revoked
    requires FolderVerdict(st, caller, f, Build(caller, v, pub, session, revoked)) == Ok
    ensures var st' := CommitFolder(st, caller, f, Build(caller, v, pub, session, revoked)).1;
            (f, u) in st'.grants && SeenUser(u, st'.grants[(f, u)].level) in v.users
  {
    CommitRuns(st, caller, f, v, pub, session, revoked);
    LevelsAfterCommit(st, caller, f, v, pub, session, revoked, f, u);
  }

  lemma ListedWithLevel(ctx: Server, f: Id, v: View, u: User, level: Level)
    requires f in ctx.files && ContextRead(ctx, f, v) && SeenUser(u, level) in v.users
    ensures (f, u) in ctx.grants && ctx.grants[(f, u)].level == level
  {
    var i :| 0 <= i < |v.users| && v.users[i] == SeenUser(u, level);
    OnIsGranted(ctx, f, u);
    assert u in UsersOn(ctx, f);
  }

  /**
   A level that the owner changes between the context and the commit is changed back:
   the commit writes the levels of the context, whatever happened since.
   */
  lemma LevelsAreThoseOfTheContext(ctx: Server, es: seq<Event>, caller: User, f: Id, v: View,
                                   pub: Key, session: Session, revoked: User, u: User)
    requires Sound(ctx) && f in ctx.files && ContextRead(ctx, f, v) && Orderly(ctx, es)
    requires FolderVerdict(Run(ctx, es), caller, f, Build(caller, v, pub, session, revoked)) == Ok
    requires (f, u) in Run(ctx, es).grants && u != revoked
    ensures var st' := CommitFolder(Run(ctx, es), caller, f, Build(caller, v, pub, session, revoked)).1;
            && (f, u) in ctx.grants && (f, u) in st'.grants
            && st'.grants[(f, u)].level == ctx.grants[(f, u)].level
  {
    RunStaysSound(ctx, es);
    LevelsListed(Run(ctx, es), caller, f, v, pub, session, revoked, u);
    var st' := CommitFolder(Run(ctx, es), caller, f, Build(caller, v, pub, session, revoked)).1;
    ListedWithLevel(ctx, f, v, u, st'.grants[(f, u)].level);
  }

  /** For instance: the owner makes an editor a viewer, and an accepted commit makes them an editor again. */
  lemma LevelSetMeanwhileIsUndone(ctx: Server, caller: User, f: Id, v: View, pub: Key, session: Session, revoked: User,
                                  u: User, level: Level)
    requires Sound(ctx) && f in ctx.files && ContextRead(ctx, f, v)
    requires FolderVerdict(ctx, caller, f, Build(caller, v, pub, session, revoked)) == Ok
    requires (f, u) in ctx.grants && u != caller && u != revoked && level != Owner
    ensures var st := Run(ctx, [LevelSet(caller, f, u, level)]);
            && (f, u) in st.grants && st.grants[(f, u)].level == level
            && FolderVerdict(st, caller, f, Build(caller, v, pub, session, revoked)) == Ok
            && var st' := CommitFolder(st, caller, f, Build(caller, v, pub, session, revoked)).1;
            (f, u) in st'.grants && st'.grants[(f, u)].level == ctx.grants[(f, u)].level
  {
    LevelSetIsAccepted(ctx, caller, f, Build(caller, v, pub, session, revoked), u, level);
    LevelsAreThoseOfTheContext(ctx, [LevelSet(caller, f, u, level)], caller, f, v, pub, session, revoked, u);
  }

  lemma LevelSetIsAccepted(ctx: Server, caller: User, f: Id, p: Commit, u: User, level: Level)
    requires Owns(ctx, f, caller) && (f, u) in ctx.grants && u != caller && level != Owner
    ensures var st := Run(ctx, [LevelSet(caller, f, u, level)]);
            && st == SetLevel(ctx, caller, f, u, level)
            && (f, u) in st.grants && st.grants[(f, u)].level == level
            && FolderVerdict(st, caller, f, p) == FolderVerdict(ctx, caller, f, p)
    ensures Orderly(ctx, [LevelSet(caller, f, u, level)])
  {
    var e := LevelSet(caller, f, u, level);
    var st := Apply(ctx, e);
    assert [e][1..] == [] && Run(st, []) == st;
    assert UsersOn(st, f) == UsersOn(ctx, f) && CompleteChildren(st, f) == CompleteChildren(ctx, f);
  }

  // -------------------------------------------------------------------
  // Owners
  // -------------------------------------------------------------------

  /** On each file its owner, and nobody else, holds a grant of the owner's level. */
  ghost predicate OwnersOwn(st: Server) {
    forall f: Id, u: User :: (f, u) in st.grants ==>
      f in st.files && (st.grants[(f, u)].level == Owner <==> st.files[f].owner == u)
  }

  /** A rotation lists the owner as owner and nobody else. */
  predicate ListsOwner(st: Server, e: Event) {
    (e.FileRotated? || e.FolderRotated?) && e.f in st.files ==>
      forall i :: 0 <= i < |e.view.users| ==>
        (e.view.users[i].level == Owner <==> st.files[e.f].owner == e.view.users[i].user)
  }

  lemma CommitKeepsOwner(st: Server, caller: User, f: Id, v: View, pub: Key, session: Session, revoked: User,
                         st': Server, g: Id, u: User)
    requires Sound(st) && OwnersOwn(st) && ListsOnce(v) && Owns(st, f, caller)
    requires AclVerdict(st, caller, f, Build(caller, v, pub, session, revoked)) == Ok
    requires forall i :: 0 <= i < |v.users| ==> (v.users[i].level == Owner <==> caller == v.users[i].user)
    requires st' == ExecuteAll(st, Statements(f, Build(caller, v, pub, session, revoked)))
    requires RowsCommitted(st, f, Build(caller, v, pub, session, revoked), st') && (g, u) in st'.grants
    ensures g in st'.files && (st'.grants[(g, u)].level == Owner <==> st'.files[g].owner == u)
  {
    LevelsAfterCommit(st, caller, f, v, pub, session, revoked, g, u);
    assert GrantSound(st, g, u);
    assert st'.files[g] == RowAfter(st, f, Build(caller, v, pub, session, revoked), g);
  }

  lemma CommitKeepsOwners(st: Server, caller: User, f: Id, v: View, pub: Key, session: Session, revoked: User)
    requires Sound(st) && OwnersOwn(st) && ListsOnce(v) && Owns(st, f, caller)
    requires AclVerdict(st, caller, f, Build(caller, v, pub, session, revoked)) == Ok
    requires forall i :: 0 <= i < |v.users| ==> (v.users[i].level == Owner <==> caller == v.users[i].user)
    ensures OwnersOwn(ExecuteAll(st, Statements(f, Build(caller, v, pub, session, revoked))))
  {
    var st' := ExecuteAll(st, Statements(f, Build(caller, v, pub, session, revoked)));
    CommitSucceeds(st, caller, f, v, pub, session, revoked);
    forall g: Id, u: User | (g, u) in st'.grants
      ensures g in st'.files && (st'.grants[(g, u)].level == Owner <==> st'.files[g].owner == u)
    {
      CommitKeepsOwner(st, caller, f, v, pub, session, revoked, st', g, u);
    }
  }

  lemma RotationKeepsOwners(st: Server, e: Event, p: Commit)
    requires Sound(st) && OwnersOwn(st) && WellFormed(st, e) && ListsOwner(st, e)
    requires (e.FileRotated? || e.FolderRotated?) && p == Build(e.caller, e.view, e.pub, e.session, e.revoked)
    ensures OwnersOwn(Apply(st, e))
  {
    assert e.FileRotated? ==> p.(rewraps := []) == p;
    if e.f in st.files && st.files[e.f].owner == e.caller && AclVerdict(st, e.caller, e.f, p) == Ok {
      CommitRuns(st, e.caller, e.f, e.view, e.pub, e.session, e.revoked);
      CommitKeepsOwners(st, e.caller, e.f, e.view, e.pub, e.session, e.revoked);
    }
  }

  lemma StepKeepsOwners(st: Server, e: Event)
    requires Sound(st) && OwnersOwn(st) && WellFormed(st, e) && ListsOwner(st, e)
    ensures OwnersOwn(Apply(st, e))
  {
    if e.FileRotated? || e.FolderRotated? {
      RotationKeepsOwners(st, e, Build(e.caller, e.view, e.pub, e.session, e.revoked));
    }
  }

  ghost predicate AllListOwner(st: Server, es: seq<Event>)
    decreases |es|
  {
    es == [] || (ListsOwner(st, es[0]) && AllListOwner(Apply(st, es[0]), es[1..]))
  }

  /** In the course of any run ownership stays as it was: no request makes, demotes or removes an owner. */
  lemma {:induction false} RunKeepsOwners(st: Server, es: seq<Event>, f: Id)
    requires Sound(st) && OwnersOwn(st) && Orderly(st, es) && AllListOwner(st, es)
    ensures OwnersOwn(Run(st, es)) && Sound(Run(st, es))
    ensures f in st.files ==>
              && f in Run(st, es).files && Run(st, es).files[f].owner == st.files[f].owner
              && Holds(Run(st, es), f, st.files[f].owner, Owner)
    decreases |es|
  {
    if es == [] {
      if f in st.files {
        assert RowSound(st, f);
        HoldsHere(st, f, st.files[f].owner, 64, Owner);
      }
    } else {
      ApplyStaysSound(st, es[0]);
      StepKeepsOwners(st, es[0]);
      if f in st.files { OwnersStayPut(st, es[0], f); }
      RunKeepsOwners(Apply(st, es[0]), es[1..], f);
    }
  }

  lemma RotationKeepsRow(st: Server, e: Event, p: Commit, f: Id)
    requires Sound(st) && WellFormed(st, e) && f in st.files
    requires (e.FileRotated? || e.FolderRotated?) && Owns(st, e.f, e.caller)
    requires p == Build(e.caller, e.view, e.pub, e.session, e.revoked)
    ensures var st' := CommitWith(Ok, st, e.f, p).1; f in st'.files && st'.files[f].owner == st.files[f].owner
  {
    CommitRuns(st, e.caller, e.f, e.view, e.pub, e.session, e.revoked);
    CommitSucceeds(st, e.caller, e.f, e.view, e.pub, e.session, e.revoked);
    assert ExecuteAll(st, Statements(e.f, p)).files[f] == RowAfter(st, e.f, p, f);
  }

  lemma OwnersStayPut(st: Server, e: Event, f: Id)
    requires Sound(st) && WellFormed(st, e) && f in st.files
    ensures f in Apply(st, e).files && Apply(st, e).files[f].owner == st.files[f].owner
  {
    if (e.FileRotated? || e.FolderRotated?) && Owns(st, e.f, e.caller) {
      var p := Build(e.caller, e.view, e.pub, e.session, e.revoked);
      assert e.FileRotated? ==> p.(rewraps := []) == p;
      RotationKeepsRow(st, e, p, f);
    }
  }

  lemma RotationTakesOne(st: Server, e: Event, p: Commit, g: Id, u: User)
    requires Sound(st) && WellFormed(st, e) && (g, u) in st.grants
    requires (e.FileRotated? || e.FolderRotated?) && p == Build(e.caller, e.view, e.pub, e.session, e.revoked)
    ensures (g, u) !in Apply(st, e).grants <==> RotationAccepted(st, e) && (g, u) == (e.f, e.revoked)
  {
    assert e.FileRotated? ==> p.(rewraps := []) == p;
    if RotationAccepted(st, e) {
      CommitRuns(st, e.caller, e.f, e.view, e.pub, e.session, e.revoked);
      LevelsAfterCommit(st, e.caller, e.f, e.view, e.pub, e.session, e.revoked, g, u);
    }
  }

  /** A grant goes by an unshare or a leave that is allowed, or by an accepted rotation, and never otherwise. */
  lemma GrantsGoExactly(st: Server, e: Event, g: Id, u: User)
    requires Sound(st) && WellFormed(st, e) && (g, u) in st.grants
    ensures (g, u) !in Apply(st, e).grants <==>
            match e
            case Unshared(caller, f, target) => MayRemove(st, caller, f, target) && (g, u) == (f, target)
            case Left(caller, f) => !Owns(st, f, caller) && (g, u) == (f, caller)
            case FileRotated(_, f, _, _, _, revoked) => RotationAccepted(st, e) && (g, u) == (f, revoked)
            case FolderRotated(_, f, _, _, _, revoked) => RotationAccepted(st, e) && (g, u) == (f, revoked)
            case _ => false
  {
    if e.FileRotated? || e.FolderRotated? {
      RotationTakesOne(st, e, Build(e.caller, e.view, e.pub, e.session, e.revoked), g, u);
    }
  }

  // -------------------------------------------------------------------
  // How anyone comes to read a file
  // -------------------------------------------------------------------

  /**
   The ways to be let in: someone who may share the row or a row above it shares that, or
   someone who controls it moves it to where the reader already reads. Both could read it.
   */
  ghost predicate LetsIn(st: Server, e: Event, u: User, g: Id) {
    match e
    case Shared(r) =>
      MayShare(st, r) && r.recipient == u && AtOrBelow(st, g, r.file) && CanRead(st, r.caller, g)
    case Moved(r) =>
      && MayMove(st, r) && AtOrBelow(st, g, r.file) && CanRead(st, r.caller, g)
      && r.dest.Some? && CanRead(st, u, r.dest.value)
    case _ => false
  }

  lemma ControllersRead(st: Server, f: Id, u: User, g: Id)
    requires Sound(st) && Controls(st, f, u) && AtOrBelow(st, g, f)
    ensures CanRead(st, u, g)
  {
    if Writes(st, f, u) {
      WritersRead(st, f, u, g);
    } else {
      assert RowSound(st, f);
      AncestorsAreRows(st, g, f);
      CanReadIfCovered(st, u, g);
    }
  }

  lemma MoveInsideCovers(st: Server, u: User, g: Id, top: Id)
    requires Sound(st) && g in st.files && CoveredInside(st, u, g, top)
    ensures CanRead(st, u, g)
  {
    CanReadIfCovered(st, u, g);
  }

  lemma LessCover(st: Server, st': Server, u: User, g: Id)
    requires ParentsOf(st') == ParentsOf(st) && st'.grants.Keys <= st.grants.Keys && Covered(st', u, g)
    ensures Covered(st, u, g)
  {
    var a :| (a, u) in st'.grants && Reaches(ParentsOf(st'), ParentsOf(st').Keys, g, a);
    assert (a, u) in st.grants.Keys;
  }

  lemma SameCoverReads(st: Server, st': Server, u: User, g: Id)
    requires Sound(st) && Sound(st') && ParentsOf(st') == ParentsOf(st) && st'.grants.Keys <= st.grants.Keys
    requires CanRead(st', u, g)
    ensures CanRead(st, u, g)
  {
    assert g in ParentsOf(st') && g in ParentsOf(st);
    CanReadIfCovered(st, u, g);
    CanReadIfCovered(st', u, g);
    LessCover(st, st', u, g);
  }

  lemma RotationLetsNobodyIn(st: Server, e: Event, u: User, g: Id)
    requires Sound(st) && WellFormed(st, e) && UpToDate(st, e) && (e.FileRotated? || e.FolderRotated?)
    requires CanRead(Apply(st, e), u, g)
    ensures CanRead(st, u, g)
  {
    CanReadIfCovered(st, u, g);
    match e
    case FileRotated(caller, f, v, pub, session, revoked) =>
      var p := Build(caller, v, pub, session, revoked);
      assert p.(rewraps := []) == p;
      if FileVerdict(st, caller, f, p) == Ok {
        FileRotationPreservesAccess(st, caller, f, v, pub, session, revoked, u, g);
      }
    case FolderRotated(caller, f, v, pub, session, revoked) =>
      if FolderVerdict(st, caller, f, Build(caller, v, pub, session, revoked)) == Ok {
        FolderRotationPreservesAccess(st, caller, f, v, pub, session, revoked, u, g);
      }
  }

  lemma MoveLetsIn(st: Server, r: MoveRequest, u: User, g: Id)
    requires Sound(st) && (MoveWrites(st, r) ==> MoveCurrent(st, r)) && CanRead(Move(st, r), u, g)
    ensures CanRead(st, u, g) || LetsIn(st, Moved(r), u, g)
  {
    MoveChecksAre(st, r);
    if MayMove(st, r) {
      MoveReaders(st, r, u, g);
      if AtOrBelow(st, g, r.file) {
        AncestorsAreRows(st, g, r.file);
        ControllersRead(st, r.file, r.caller, g);
        if CoveredInside(st, u, g, r.file) { MoveInsideCovers(st, u, g, r.file); }
      }
    }
  }

  lemma CreateLetsNobodyIn(st: Server, n: NewFile, u: User, g: Id)
    requires Sound(st) && Fresh(st, n.pub) && g in st.files && CanRead(Create(st, n), u, g)
    requires CreateVerdict(st, n) == Ok ==> ParentCurrent(st, n.parent, n.seenParentPub)
    ensures CanRead(st, u, g)
  {
    CreateChecksAre(st, n);
    if MayCreate(st, n) { CreateReaders(st, n, u, g); }
  }

  predicate AddsNoRoute(e: Event) {
    !e.Created? && !e.Shared? && !e.Moved? && !e.FileRotated? && !e.FolderRotated?
  }

  lemma OthersAddNoRoute(st: Server, e: Event)
    requires AddsNoRoute(e)
    ensures ParentsOf(Apply(st, e)) == ParentsOf(st) && Apply(st, e).grants.Keys <= st.grants.Keys
  {
  }

  lemma ShareLetsIn(st: Server, r: ShareRequest, u: User, g: Id)
    requires Sound(st) && (ShareWrites(st, r) ==> r.seenPriv == st.files[r.file].pub) && CanRead(Share(st, r), u, g)
    ensures CanRead(st, u, g) || LetsIn(st, Shared(r), u, g)
  {
    EffectiveLevelExact(st, r.file, r.caller, Owner);
    if MayShare(st, r) { ShareReaders(st, r, u, g); }
  }

  /** Whoever can read an existing file after a request and could not before was let in by it. */
  lemma NewReadersAreLetIn(st: Server, e: Event, u: User, g: Id)
    requires Sound(st) && WellFormed(st, e) && UpToDate(st, e) && g in st.files && CanRead(Apply(st, e), u, g)
    ensures CanRead(st, u, g) || LetsIn(st, e, u, g)
  {
    if e.Created? {
      CreateLetsNobodyIn(st, e.file, u, g);
    } else if e.Shared? {
      ShareLetsIn(st, e.share, u, g);
    } else if e.Moved? {
      MoveLetsIn(st, e.move, u, g);
    } else if e.FileRotated? || e.FolderRotated? {
      RotationLetsNobodyIn(st, e, u, g);
    } else {
      ApplyStaysSound(st, e);
      OthersAddNoRoute(st, e);
      SameCoverReads(st, Apply(st, e), u, g);
    }
  }

  /** Some request of the run, in the state it met, let the user in. */
  ghost predicate LetInDuring(st: Server, es: seq<Event>, u: User, g: Id)
    decreases |es|
  {
    es != [] && (LetsIn(st, es[0], u, g) || LetInDuring(Apply(st, es[0]), es[1..], u, g))
  }

  /**
   Confidentiality over whole runs: a file is read by nobody but those who could read it
   at the start and those let in, one request after another, by people who could.
   */
  lemma {:induction false} ReadersAreLetIn(st: Server, es: seq<Event>, u: User, g: Id)
    requires Sound(st) && Orderly(st, es) && g in st.files && CanRead(Run(st, es), u, g)
    ensures CanRead(st, u, g) || LetInDuring(st, es, u, g)
    decreases |es|
  {
    if es != [] {
      ApplyStaysSound(st, es[0]);
      OwnersStayPut(st, es[0], g);
      ReadersAreLetIn(Apply(st, es[0]), es[1..], u, g);
      if CanRead(Apply(st, es[0]), u, g) {
        NewReadersAreLetIn(st, es[0], u, g);
      }
    }
  }
}
