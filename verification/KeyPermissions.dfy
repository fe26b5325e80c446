/**
 Who may do what, and what each request changes: the levels that decide, the cells a
 request writes and under which conditions, and who can read a file afterwards.
 */
module KeyPermissions {
  import opened Common
  import opened Forest
  import opened KeyTree
  import opened KeyWalk
  import opened KeyCommits
  import opened KeyRotation
  import opened KeyAccess

  // -------------------------------------------------------------------
  // The level that counts
  // -------------------------------------------------------------------

  predicate Up(st: Server, f: Id, a: Id, n: nat) {
    Climbs(ParentsOf(st), ParentsOf(st).Keys, f, a, n)
  }

  /** Of the rows from `f` up, `a` is the nearest on which the user has a grant. */
  ghost predicate Nearest(st: Server, f: Id, u: User, a: Id, n: nat) {
    && Up(st, f, a, n) && (a, u) in st.grants
    && forall b: Id, m: nat :: m < n && Up(st, f, b, m) ==> (b, u) !in st.grants
  }

  ghost predicate HoldsWithin(st: Server, f: Id, u: User, limit: nat, l: Level) {
    exists a, n: nat :: n <= limit && Nearest(st, f, u, a, n) && st.grants[(a, u)].level == l
  }

  /** The nearest grant, at most 64 levels up, has this level. */
  ghost predicate Holds(st: Server, f: Id, u: User, l: Level) {
    HoldsWithin(st, f, u, 64, l)
  }

  ghost predicate Writes(st: Server, f: Id, u: User) {
    Holds(st, f, u, Owner) || Holds(st, f, u, Editor)
  }

  lemma NearestAbove(st: Server, f: Id, u: User, a: Id, n: nat)
    requires f in st.files && (f, u) !in st.grants && n > 0
    ensures Nearest(st, f, u, a, n) <==>
            st.files[f].parent.Some? && Nearest(st, st.files[f].parent.value, u, a, n - 1)
  {
    if st.files[f].parent.Some? {
      var p := st.files[f].parent.value;
      forall b: Id, m: nat
        ensures m > 0 ==> (Up(st, f, b, m) <==> Up(st, p, b, m - 1))
        ensures Up(st, f, b, 0) ==> b == f
      {
      }
      if Nearest(st, f, u, a, n) {
        forall b: Id, m: nat | m < n - 1 && Up(st, p, b, m)
          ensures (b, u) !in st.grants
        {
          assert Up(st, f, b, m + 1);
        }
      }
    }
  }

  lemma HoldsAbove(st: Server, f: Id, u: User, limit: nat, l: Level)
    requires f in st.files && (f, u) !in st.grants
    ensures HoldsWithin(st, f, u, limit, l) <==>
            limit > 0 && st.files[f].parent.Some? && HoldsWithin(st, st.files[f].parent.value, u, limit - 1, l)
  {
    if HoldsWithin(st, f, u, limit, l) {
      var a, n: nat :| n <= limit && Nearest(st, f, u, a, n) && st.grants[(a, u)].level == l;
      NearestAbove(st, f, u, a, n);
    }
    if limit > 0 && st.files[f].parent.Some? && HoldsWithin(st, st.files[f].parent.value, u, limit - 1, l) {
      var p := st.files[f].parent.value;
      var a, n: nat :| n <= limit - 1 && Nearest(st, p, u, a, n) && st.grants[(a, u)].level == l;
      NearestAbove(st, f, u, a, n + 1);
    }
  }

  lemma HoldsHere(st: Server, f: Id, u: User, limit: nat, l: Level)
    requires f in st.files && (f, u) in st.grants
    ensures HoldsWithin(st, f, u, limit, l) <==> st.grants[(f, u)].level == l
  {
    assert Up(st, f, f, 0) && Nearest(st, f, u, f, 0);
    if HoldsWithin(st, f, u, limit, l) {
      var a, n: nat :| n <= limit && Nearest(st, f, u, a, n) && st.grants[(a, u)].level == l;
      assert n > 0 ==> (f, u) !in st.grants;
    }
  }

  lemma {:induction false} LevelWithin(st: Server, f: Id, u: User, limit: nat, l: Level)
    requires GrantsSound(st)
    ensures EffectiveLevel(st, f, u, limit) == Some(l) <==> HoldsWithin(st, f, u, limit, l)
    decreases limit
  {
    if (f, u) in st.grants {
      assert GrantSound(st, f, u);
      HoldsHere(st, f, u, limit, l);
    } else if f in st.files {
      HoldsAbove(st, f, u, limit, l);
      if limit > 0 && st.files[f].parent.Some? {
        LevelWithin(st, st.files[f].parent.value, u, limit - 1, l);
      }
    }
  }

  /** The permission of a user is the level of the nearest grant, and there is none beyond 64 levels. */
  lemma EffectiveLevelExact(st: Server, f: Id, u: User, l: Level)
    requires GrantsSound(st)
    ensures EffectiveLevel(st, f, u) == Some(l) <==> Holds(st, f, u, l)
    ensures MayWrite(st, f, u) <==> Writes(st, f, u)
    ensures EffectiveLevel(st, f, u).None? <==> !Writes(st, f, u) && !Holds(st, f, u, Viewer)
  {
    LevelWithin(st, f, u, 64, l);
    LevelWithin(st, f, u, 64, Owner);
    LevelWithin(st, f, u, 64, Editor);
    LevelWithin(st, f, u, 64, Viewer);
    if EffectiveLevel(st, f, u).Some? {
      var level := EffectiveLevel(st, f, u).value;
      assert level.Owner? || level.Editor? || level.Viewer?;
    }
  }

  /** Whoever has a permission can also open the file. */
  lemma HoldersAreCovered(st: Server, f: Id, u: User, l: Level)
    requires Holds(st, f, u, l)
    ensures f in st.files && Covered(st, u, f)
  {
    var a, n: nat :| n <= 64 && Nearest(st, f, u, a, n) && st.grants[(a, u)].level == l;
    assert Reaches(ParentsOf(st), ParentsOf(st).Keys, f, a);
  }

  function GrantAt(st: Server, f: Id, u: User): Option<Grant> {
    if (f, u) in st.grants then Some(st.grants[(f, u)]) else None
  }

  /** The row and the rows above it. */
  ghost predicate AtOrBelow(st: Server, g: Id, f: Id) {
    Reaches(ParentsOf(st), ParentsOf(st).Keys, g, f)
  }

  // -------------------------------------------------------------------
  // Share
  // -------------------------------------------------------------------

  /** Editors and owners may share; changing a grant that is there takes the owner's level, and nobody makes owners. */
  ghost predicate MayShare(st: Server, r: ShareRequest) {
    && r.file in st.files && st.files[r.file].uploadComplete && !st.files[r.file].trashed
    && Writes(st, r.file, r.caller)
    && r.recipient != r.caller && r.recipient != st.files[r.file].owner && r.level != Some(Owner)
    && ((r.file, r.recipient) in st.grants ==> Holds(st, r.file, r.caller, Owner))
  }

  /** The level asked for, else the one there was unless it was an owner's, else editor. */
  predicate LevelGiven(before: Option<Grant>, asked: Option<Level>, after: Level) {
    && (asked.Some? ==> after == asked.value)
    && (asked.None? && before.Some? && before.value.level != Owner ==> after == before.value.level)
    && (asked.None? && (before.None? || before.value.level == Owner) ==> after == Editor)
  }

  /** A share writes one grant, sealed for its recipient, if and only if the caller may; all else stays. */
  lemma ShareExactly(st: Server, r: ShareRequest, g: Id, u: User)
    requires GrantsSound(st)
    ensures var st' := Share(st, r);
            && st'.files == st.files
            && (!MayShare(st, r) || (g, u) != (r.file, r.recipient) ==> GrantAt(st', g, u) == GrantAt(st, g, u))
            && (MayShare(st, r) ==>
                  && GrantAt(st', r.file, r.recipient).Some?
                  && var made := GrantAt(st', r.file, r.recipient).value;
                  && Unseal(made.box, UserKey(r.caller), UserKey(r.recipient)) == Some(r.seenPriv)
                  && made.wrappedBy == UserKey(r.caller)
                  && LevelGiven(GrantAt(st, r.file, r.recipient), r.level, made.level))
  {
    EffectiveLevelExact(st, r.file, r.caller, Owner);
  }

  /** Without permission the file looks as if it were not there; sharers and owners need no share. */
  lemma ShareOutcomes(st: Server, r: ShareRequest)
    requires GrantsSound(st)
    ensures var open := r.file in st.files && st.files[r.file].uploadComplete && !st.files[r.file].trashed
                        && Writes(st, r.file, r.caller);
            ShareVerdict(st, r) ==
            if r.level == Some(Owner) then BadRequest
            else if !open then NotFound
            else if r.recipient == r.caller || r.recipient == st.files[r.file].owner then BadRequest else Ok
  {
    EffectiveLevelExact(st, r.file, r.caller, Owner);
  }

  /** A share of the current key lets the recipient read the row and all below it, which the caller could read. */
  lemma ShareReaders(st: Server, r: ShareRequest, u: User, g: Id)
    requires Sound(st) && (MayShare(st, r) ==> r.seenPriv == st.files[r.file].pub)
    ensures CanRead(Share(st, r), u, g) <==>
            CanRead(st, u, g) || (MayShare(st, r) && u == r.recipient && AtOrBelow(st, g, r.file))
    ensures MayShare(st, r) && AtOrBelow(st, g, r.file) ==> CanRead(st, r.caller, g)
  {
    var st' := Share(st, r);
    ShareExactly(st, r, g, u);
    EffectiveLevelExact(st, r.file, r.caller, Owner);
    ShareStaysSound(st, r);
    CanReadIfCovered(st, u, g);
    CanReadIfCovered(st', u, g);
    assert ParentsOf(st') == ParentsOf(st);
    forall a: Id
      ensures (a, u) in st'.grants <==>
              (a, u) in st.grants || (MayShare(st, r) && (a, u) == (r.file, r.recipient))
    {
      ShareExactly(st, r, a, u);
    }
    if MayShare(st, r) && AtOrBelow(st, g, r.file) {
      WritersRead(st, r.file, r.caller, g);
      AncestorsAreRows(st, g, r.file);
    }
  }

  lemma AncestorsAreRows(st: Server, g: Id, f: Id)
    requires AtOrBelow(st, g, f)
    ensures g in st.files
  {
  }

  lemma WritersRead(st: Server, f: Id, u: User, g: Id)
    requires Sound(st) && Writes(st, f, u) && AtOrBelow(st, g, f)
    ensures CanRead(st, u, g)
  {
    if Holds(st, f, u, Owner) { HoldersAreCovered(st, f, u, Owner); } else { HoldersAreCovered(st, f, u, Editor); }
    var a :| (a, u) in st.grants && Reaches(ParentsOf(st), ParentsOf(st).Keys, f, a);
    ReachesTransitive(ParentsOf(st), ParentsOf(st).Keys, g, f, a);
    AncestorsAreRows(st, g, f);
    CanReadIfCovered(st, u, g);
  }

  // -------------------------------------------------------------------
  // Unshare, leave, change level
  // -------------------------------------------------------------------

  /** Owners may remove anyone but themselves, and everyone but the owner may go. */
  predicate MayRemove(st: Server, caller: User, f: Id, target: User) {
    !Owns(st, f, target) && (Owns(st, f, caller) || target == caller)
  }

  /** An unshare takes away that one grant if and only if the caller may remove it. */
  lemma UnshareExactly(st: Server, caller: User, f: Id, target: User, g: Id, u: User)
    ensures var st' := Unshare(st, caller, f, target);
            && st'.files == st.files
            && GrantAt(st', g, u) ==
               if MayRemove(st, caller, f, target) && (g, u) == (f, target) then None else GrantAt(st, g, u)
  {
  }

  lemma CoverAfterDrop(st: Server, f: Id, target: User, u: User, g: Id)
    ensures Covered(DropGrant(st, f, target), u, g) <==>
            if u == target then CoveredElsewhere(st, target, g, f) else Covered(st, u, g)
  {
    var st' := DropGrant(st, f, target);
    assert ParentsOf(st') == ParentsOf(st);
    assert forall a: Id :: (a, u) in st'.grants <==> (a, u) in st.grants && (a, u) != (f, target);
  }

  /** What it takes away is what no other grant covers. */
  lemma UnshareReaders(st: Server, caller: User, f: Id, target: User, u: User, g: Id)
    requires Sound(st)
    ensures CanRead(Unshare(st, caller, f, target), u, g) <==>
            if MayRemove(st, caller, f, target) && u == target
            then g in st.files && CoveredElsewhere(st, target, g, f) else CanRead(st, u, g)
  {
    if Unshare(st, caller, f, target) != st {
      BookkeepingStaysSound(st, caller, f, target, Editor);
      CanReadIfCovered(st, u, g);
      CanReadIfCovered(Unshare(st, caller, f, target), u, g);
      CoverAfterDrop(st, f, target, u, g);
    } else if MayRemove(st, caller, f, target) {
      assert Unshare(st, caller, f, target) == DropGrant(st, f, target);
      CanReadIfCovered(st, u, g);
      CoverAfterDrop(st, f, target, u, g);
    }
  }

  /** Leaving is removing oneself. */
  lemma LeaveIsUnshare(st: Server, caller: User, f: Id)
    ensures Leave(st, caller, f) == Unshare(st, caller, f, caller)
    ensures !MayRemove(st, caller, f, caller) <==> Owns(st, f, caller)
  {
  }

  /** Only the owner changes a level, only someone else's, and never to the owner's. */
  lemma SetLevelExactly(st: Server, caller: User, f: Id, target: User, level: Level, g: Id, u: User)
    ensures var st' := SetLevel(st, caller, f, target, level);
            && st'.files == st.files
            && GrantAt(st', g, u) ==
               if (g, u) == (f, target) && (g, u) in st.grants && Owns(st, f, caller) && !Owns(st, f, target)
                  && level != Owner
               then Some(st.grants[(g, u)].(level := level)) else GrantAt(st, g, u)
  {
  }

  // -------------------------------------------------------------------
  // Finalize, flag
  // -------------------------------------------------------------------

  /** The owner's finalize adds the row to its parent's children, and nobody else's adds any. */
  lemma FinalizeExactly(st: Server, caller: User, f: Id, p: Id)
    ensures CompleteChildren(Finalize(st, caller, f), p) ==
            CompleteChildren(st, p) + if Owns(st, f, caller) && st.files[f].parent == Some(p) then {f} else {}
    ensures !Owns(st, f, caller) ==> Finalize(st, caller, f) == st
    ensures Finalize(st, caller, f).grants == st.grants
  {
  }

  /** Trashing hides exactly the rows named, restoring the same rows brings back what was there. */
  lemma FlagExactly(st: Server, ids: set<Id>, g: Id)
    requires g in st.files
    ensures g in Flag(st, ids, true).files && g in Flag(st, ids, false).files
    ensures Visible(Flag(st, ids, true).files[g]) <==> Visible(st.files[g]) && g !in ids
    ensures Visible(Flag(st, ids, false).files[g]) <==>
            st.files[g].uploadComplete && (!st.files[g].trashed || g in ids)
    ensures (forall x :: x in ids && x in st.files ==> !st.files[x].trashed) ==>
              Flag(Flag(st, ids, true), ids, false) == st
  {
  }

  /**
   A version becomes current only at its owner's request, and only of a file; a restore
   asks besides that the file is visible and the owner's grant is there. Nothing but the
   file's session key and, if the version has one, its claim is changed.
   */
  lemma VersionExactly(st: Server, r: VersionRequest, g: Id)
    ensures var st' := PutVersion(st, r);
            var lands := && r.file in st.files && st.files[r.file].owner == r.caller && !st.files[r.file].isFolder
                         && (r.restored ==>
                               && st.files[r.file].uploadComplete && !st.files[r.file].trashed
                               && (r.file, r.caller) in st.grants);
            && st'.grants == st.grants && st'.files.Keys == st.files.Keys
            && (g in st.files && (!lands || g != r.file) ==> st'.files[g] == st.files[g])
            && (lands ==>
                  && var row := st'.files[r.file];
                  && row == st.files[r.file].(sessionBox := row.sessionBox, metaKey := row.metaKey, claim := row.claim)
                  && Unseal(row.sessionBox, UserKey(r.caller), r.seenPub) == Some(r.session)
                  && row.metaKey == r.session
                  && if r.seenParentPub.None? then row.claim == st.files[r.file].claim
                     else row.claim.Some?
                          && Unseal(row.claim.value.box, row.claim.value.wrappedBy, r.seenParentPub.value)
                             == Some(Keys(r.session, r.seenPub)))
  {
  }

  // -------------------------------------------------------------------
  // Create
  // -------------------------------------------------------------------

  /** A folder created under a visible row on which the caller has a grant needs that row to be a folder. */
  predicate ParentRefused(st: Server, n: NewFile) {
    && n.isFolder && n.parent.Some? && n.parent.value in st.files && (n.parent.value, n.caller) in st.grants
    && st.files[n.parent.value].uploadComplete && !st.files[n.parent.value].trashed
    && !st.files[n.parent.value].isFolder
  }

  ghost predicate MayCreate(st: Server, n: NewFile) {
    && n.id !in st.files
    && (n.parent.Some? ==> Writes(st, n.parent.value, n.caller) && !ParentRefused(st, n))
  }

  lemma HoldsNeedsRow(st: Server, f: Id, u: User)
    requires f !in st.files
    ensures !Holds(st, f, u, Owner) && !Holds(st, f, u, Editor) && !Holds(st, f, u, Viewer)
  {
  }

  lemma CreateChecksAre(st: Server, n: NewFile)
    requires GrantsSound(st)
    ensures CreateVerdict(st, n) == Ok <==> MayCreate(st, n)
    ensures n.parent.Some? && MayCreate(st, n) ==> n.parent.value in st.files
  {
    if n.parent.Some? {
      EffectiveLevelExact(st, n.parent.value, n.caller, Viewer);
      if n.parent.value !in st.files { HoldsNeedsRow(st, n.parent.value, n.caller); }
    }
  }

  /** A create adds one row and its owner's grant if and only if the caller may; all else stays. */
  lemma CreateExactly(st: Server, n: NewFile, g: Id, u: User)
    requires GrantsSound(st)
    ensures var st' := Create(st, n);
            && (!MayCreate(st, n) ==> st' == st)
            && (MayCreate(st, n) ==> st'.files.Keys == st.files.Keys + {n.id})
            && (g in st.files ==> g in st'.files && st'.files[g] == st.files[g])
            && ((g, u) != (n.id, n.caller) ==> GrantAt(st', g, u) == GrantAt(st, g, u))
    ensures MayCreate(st, n) ==>
              && n.id in Create(st, n).files && (n.parent.Some? ==> n.parent.value in st.files)
              && IsNew(st, n, Create(st, n))
  {
    CreateChecksAre(st, n);
  }

  /** As asked for, in its parent's workspace, and opened by its owner. */
  predicate IsNew(st: Server, n: NewFile, st': Server)
    requires n.id in st'.files && (n.parent.Some? ==> n.parent.value in st.files)
  {
    var row := st'.files[n.id];
    && row.owner == n.caller && row.parent == n.parent && row.isFolder == n.isFolder
    && row.uploadComplete == n.uploadComplete && !row.trashed && TrueKeys(row) == Keys(n.session, n.pub)
    && row.workspace == (if n.parent.Some? then st.files[n.parent.value].workspace else None)
    && GrantAt(st', n.id, n.caller).Some?
    && var made := GrantAt(st', n.id, n.caller).value;
    Unseal(made.box, made.wrappedBy, UserKey(n.caller)) == Some(n.pub) && made.level == Owner
  }

  /** Viewers are told so, and to everyone else without permission the parent is not there. */
  lemma CreateOutcomes(st: Server, n: NewFile)
    requires GrantsSound(st)
    ensures n.id in st.files ==> CreateVerdict(st, n) == ServerError
    ensures n.id !in st.files && n.parent.None? ==> CreateVerdict(st, n) == Ok
    ensures n.id !in st.files && n.parent.Some? ==>
              var p := n.parent.value;
              && (CreateVerdict(st, n) == BadRequest <==> ParentRefused(st, n))
              && (CreateVerdict(st, n) == Forbidden <==> !ParentRefused(st, n) && Holds(st, p, n.caller, Viewer))
              && (CreateVerdict(st, n) == NotFound <==>
                    !ParentRefused(st, n) && !Holds(st, p, n.caller, Viewer) && !Writes(st, p, n.caller))
              && (CreateVerdict(st, n) == Ok <==> MayCreate(st, n))
  {
    CreateChecksAre(st, n);
    if n.parent.Some? {
      EffectiveLevelExact(st, n.parent.value, n.caller, Viewer);
      if n.parent.value !in st.files { HoldsNeedsRow(st, n.parent.value, n.caller); }
    }
  }

  /** The new row is read by its owner and by those who read its parent, and nothing else is read by anyone new. */
  lemma CreateReaders(st: Server, n: NewFile, u: User, g: Id)
    requires Sound(st) && Fresh(st, n.pub)
    requires MayCreate(st, n) && ParentCurrent(st, n.parent, n.seenParentPub)
    ensures CanRead(Create(st, n), u, g) <==>
            if g == n.id then u == n.caller || (n.parent.Some? && CanRead(st, u, n.parent.value)) else CanRead(st, u, g)
  {
    var st' := Create(st, n);
    CreateExactly(st, n, g, u);
    CreateChecksAre(st, n);
    CreateStaysSound(st, n);
    CanReadIfCovered(st', u, g);
    CanReadIfCovered(st, u, g);
    if g in st.files { CoverOutsideNewRow(st, n, u, g); }
    if g == n.id && n.parent.Some? {
      CanReadIfCovered(st, u, n.parent.value);
      CoverOutsideNewRow(st, n, u, n.parent.value);
    }
    if g == n.id {
      CoverStep(st', u, g);
    }
  }

  lemma CoverStep(st: Server, u: User, g: Id)
    requires g in st.files
    ensures Covered(st, u, g) <==>
            (g, u) in st.grants || (st.files[g].parent.Some? && Covered(st, u, st.files[g].parent.value))
  {
    var par := ParentsOf(st);
    if Covered(st, u, g) {
      var a :| (a, u) in st.grants && Reaches(par, par.Keys, g, a);
      OneStepUp(par, g, a);
    }
    if (g, u) in st.grants {
      OneStepUp(par, g, g);
    } else if st.files[g].parent.Some? && Covered(st, u, st.files[g].parent.value) {
      var a :| (a, u) in st.grants && Reaches(par, par.Keys, st.files[g].parent.value, a);
      OneStepUp(par, g, a);
    }
  }

  lemma CoverOutsideNewRow(st: Server, n: NewFile, u: User, g: Id)
    requires Sound(st) && MayCreate(st, n) && CreateVerdict(st, n) == Ok && g in st.files
    ensures Covered(Create(st, n), u, g) <==> Covered(st, u, g)
  {
    var st', par := Create(st, n), ParentsOf(st);
    assert ParentsOf(st') == par[n.id := n.parent];
    forall a: Id
      ensures Reaches(ParentsOf(st'), ParentsOf(st').Keys, g, a) && (a, u) in st'.grants <==>
              Reaches(par, par.Keys, g, a) && (a, u) in st.grants
    {
      ReachesOldRows(st, n, g, a);
      CreateExactly(st, n, g, u);
      CreateExactly(st, n, a, u);
    }
  }

  lemma ReachesOldRows(st: Server, n: NewFile, g: Id, a: Id)
    requires Sound(st) && n.id !in st.files && g in st.files
    ensures var par := ParentsOf(st)[n.id := n.parent];
            Reaches(par, par.Keys, g, a) <==> Reaches(ParentsOf(st), ParentsOf(st).Keys, g, a)
    ensures Reaches(ParentsOf(st), ParentsOf(st).Keys, g, a) ==> a in st.files
  {
    var par := ParentsOf(st)[n.id := n.parent];
    forall m: nat
      ensures Climbs(par, par.Keys, g, a, m) <==> Climbs(ParentsOf(st), ParentsOf(st).Keys, g, a, m)
    {
      ClimbsOldRows(st, n, g, a, m);
    }
    if m: nat :| Climbs(ParentsOf(st), ParentsOf(st).Keys, g, a, m) {
      AncestorsExist(ParentsOf(st), ParentsOf(st).Keys, g, a, m);
    }
  }

  lemma {:induction false} ClimbsOldRows(st: Server, n: NewFile, g: Id, a: Id, m: nat)
    requires ClaimsSound(st) && n.id !in st.files && g in st.files
    ensures var par := ParentsOf(st)[n.id := n.parent];
            Climbs(par, par.Keys, g, a, m) <==> Climbs(ParentsOf(st), ParentsOf(st).Keys, g, a, m)
    decreases m
  {
    assert ClaimSound(st, g);
    if m > 0 && st.files[g].parent.Some? {
      ClimbsOldRows(st, n, st.files[g].parent.value, a, m - 1);
    }
  }

  // -------------------------------------------------------------------
  // Move
  // -------------------------------------------------------------------

  /** Owners, and whoever has the level of an owner or editor. */
  ghost predicate Controls(st: Server, f: Id, u: User) {
    f in st.files && (Owns(st, f, u) || Writes(st, f, u))
  }

  /** A destination the caller can write to and that is a folder outside the trash. */
  ghost predicate OpenTo(st: Server, u: User, d: Id) {
    Controls(st, d, u) && st.files[d].isFolder && !st.files[d].trashed
  }

  /** Only the owner takes a file across a workspace's boundary, or outside workspaces into someone else's folder. */
  predicate StaysAtHome(st: Server, file: Id, dest: Option<Id>)
    requires file in st.files && (dest.Some? ==> dest.value in st.files)
  {
    var row := st.files[file];
    match dest
    case None => row.workspace.None?
    case Some(d) =>
      row.workspace == st.files[d].workspace && (row.workspace.Some? || st.files[d].owner == row.owner)
  }

  /** The destination is neither the folder itself nor, as far as the check goes, below it, and not nested too deep. */
  ghost predicate PassesCycleCheck(st: Server, file: Id, d: Id)
    requires file in st.files
  {
    st.files[file].isFolder ==>
      !ReachesWithin(ParentsOf(st), d, file, 64) && !HasAncestorAt(ParentsOf(st), d, 64)
  }

  ghost predicate MayMove(st: Server, r: MoveRequest) {
    && Controls(st, r.file, r.caller) && !st.files[r.file].trashed && st.files[r.file].parent != r.dest
    && (r.dest.Some? ==> OpenTo(st, r.caller, r.dest.value) && PassesCycleCheck(st, r.file, r.dest.value))
    && (Owns(st, r.file, r.caller) || StaysAtHome(st, r.file, r.dest))
  }

  lemma ControlsExactly(st: Server, f: Id, u: User)
    requires GrantsSound(st)
    ensures Controls(st, f, u) <==> f in st.files && (Owns(st, f, u) || MayWrite(st, f, u))
  {
    EffectiveLevelExact(st, f, u, Owner);
  }

  lemma MoveDecision(st: Server, r: MoveRequest, file: bool, dest: bool)
    requires file <==> r.file in st.files && (Owns(st, r.file, r.caller) || MayWrite(st, r.file, r.caller))
    requires dest <==> r.dest.Some? && r.dest.value in st.files
                       && (Owns(st, r.dest.value, r.caller) || MayWrite(st, r.dest.value, r.caller))
    ensures MoveWrites(st, r) <==>
            && file && !st.files[r.file].trashed && st.files[r.file].parent != r.dest
            && (r.dest.Some? ==>
                  && dest && st.files[r.dest.value].isFolder && !st.files[r.dest.value].trashed
                  && (st.files[r.file].isFolder ==> IsDescendantOf(ParentsOf(st), r.file, r.dest.value) == No))
            && (Owns(st, r.file, r.caller) || StaysAtHome(st, r.file, r.dest))
  {
  }

  lemma CycleCheckIs(st: Server, file: Id, d: Id)
    requires Sound(st) && file in st.files && d in st.files
    ensures PassesCycleCheck(st, file, d) <==>
            (st.files[file].isFolder ==> IsDescendantOf(ParentsOf(st), file, d) == No)
  {
    IsDescendantOfExact(ParentsOf(st), file, d);
  }

  lemma MoveChecksAre(st: Server, r: MoveRequest)
    requires Sound(st)
    ensures MoveWrites(st, r) <==> MayMove(st, r)
  {
    var file, dest := Controls(st, r.file, r.caller), r.dest.Some? && Controls(st, r.dest.value, r.caller);
    ControlsExactly(st, r.file, r.caller);
    if r.dest.Some? {
      ControlsExactly(st, r.dest.value, r.caller);
      if file && dest { CycleCheckIs(st, r.file, r.dest.value); }
    }
    MoveDecision(st, r, file, dest);
  }

  /** A move changes place, workspace and claim of one row if and only if the caller may; all else stays. */
  lemma MoveExactly(st: Server, r: MoveRequest, g: Id)
    requires Sound(st)
    ensures var st' := Move(st, r);
            && st'.grants == st.grants && st'.files.Keys == st.files.Keys
            && (!MayMove(st, r) ==> st' == st)
            && (g in st.files && g != r.file ==> st'.files[g] == st.files[g])
            && (MayMove(st, r) ==>
                  && var row := st'.files[r.file];
                  && row == st.files[r.file].(parent := r.dest, workspace := row.workspace, claim := row.claim)
                  && row.workspace == (if r.dest.Some? then st.files[r.dest.value].workspace else None)
                  && if r.dest.None? then row.claim.None?
                     else row.claim.Some?
                          && Unseal(row.claim.value.box, UserKey(r.caller), r.seenDestPub) == Some(r.seen)
                          && row.claim.value.wrappedBy == UserKey(r.caller))
  {
    MoveChecksAre(st, r);
  }

  lemma MoveRefusal(st: Server, r: MoveRequest, file: bool, dest: bool)
    requires file <==> r.file in st.files && (Owns(st, r.file, r.caller) || MayWrite(st, r.file, r.caller))
    requires dest <==> r.dest.Some? && r.dest.value in st.files
                       && (Owns(st, r.dest.value, r.caller) || MayWrite(st, r.dest.value, r.caller))
    ensures file && st.files[r.file].trashed ==> MoveVerdict(st, r) == BadRequest
    ensures file && !st.files[r.file].trashed && st.files[r.file].parent == r.dest ==> MoveVerdict(st, r) == Ok
    ensures !file ==> MoveVerdict(st, r) == NotFound
    ensures file && !st.files[r.file].trashed && st.files[r.file].parent != r.dest ==>
              && (MoveVerdict(st, r) == NotFound <==> r.dest.Some? && !dest)
              && (MoveVerdict(st, r) == Forbidden ==>
                    !Owns(st, r.file, r.caller) && (r.dest.Some? ==> dest) && !StaysAtHome(st, r.file, r.dest))
              && (MoveVerdict(st, r) == BadRequest ==>
                    && r.dest.Some? && dest
                    && (st.files[r.dest.value].isFolder && !st.files[r.dest.value].trashed ==>
                          IsDescendantOf(ParentsOf(st), r.file, r.dest.value) == Yes))
              && (MoveVerdict(st, r) == ServerError ==>
                    r.dest.Some? && dest && IsDescendantOf(ParentsOf(st), r.file, r.dest.value) == Capped)
    ensures MoveVerdict(st, r) != Conflict
  {
  }

  /**
   What a move is answered. To those without permission file and destination are not
   there; a file in the trash is not moved, and a move to the same place does nothing; a
   stranger may not carry it off; a bad request names no open folder or one inside the
   file; and the rest are nested too deep.
   */
  lemma MoveOutcomes(st: Server, r: MoveRequest)
    requires Sound(st)
    ensures !Controls(st, r.file, r.caller) ==> MoveVerdict(st, r) == NotFound
    ensures Controls(st, r.file, r.caller) && st.files[r.file].trashed ==> MoveVerdict(st, r) == BadRequest
    ensures Controls(st, r.file, r.caller) && !st.files[r.file].trashed && st.files[r.file].parent == r.dest ==>
              MoveVerdict(st, r) == Ok
    ensures Controls(st, r.file, r.caller) && !st.files[r.file].trashed && st.files[r.file].parent != r.dest ==>
              && (MoveVerdict(st, r) == NotFound <==> r.dest.Some? && !Controls(st, r.dest.value, r.caller))
              && (MoveVerdict(st, r) == Forbidden ==>
                    && (r.dest.Some? ==> r.dest.value in st.files)
                    && !Owns(st, r.file, r.caller) && !StaysAtHome(st, r.file, r.dest))
              && (MoveVerdict(st, r) == BadRequest ==>
                    && r.dest.Some? && r.dest.value in st.files
                    && (st.files[r.dest.value].isFolder && !st.files[r.dest.value].trashed ==>
                          ReachesWithin(ParentsOf(st), r.dest.value, r.file, 64)))
              && (MoveVerdict(st, r) == ServerError ==>
                    r.dest.Some? && HasAncestorAt(ParentsOf(st), r.dest.value, 64))
    ensures MoveVerdict(st, r) != Conflict
  {
    var file, dest := Controls(st, r.file, r.caller), r.dest.Some? && Controls(st, r.dest.value, r.caller);
    ControlsExactly(st, r.file, r.caller);
    if r.dest.Some? {
      ControlsExactly(st, r.dest.value, r.caller);
      if dest { IsDescendantOfExact(ParentsOf(st), r.file, r.dest.value); }
    }
    MoveRefusal(st, r, file, dest);
  }

  /** A grant on the row or on a row between it and `top`. */
  ghost predicate CoveredInside(st: Server, u: User, g: Id, top: Id) {
    exists a :: (a, u) in st.grants && AtOrBelow(st, g, a) && AtOrBelow(st, a, top)
  }

  lemma BelowIsSubtree(st: Server, g: Id, f: Id)
    ensures AtOrBelow(st, g, f) <==> g in Subtree(ParentsOf(st), ParentsOf(st).Keys, f)
  {
  }

  lemma AboveAfterMove(st: Server, r: MoveRequest, g: Id, a: Id)
    requires Sound(st) && r.file in st.files
    requires r.dest.Some? ==> !AtOrBelow(st, r.dest.value, r.file)
    ensures AtOrBelow(Rehang(st, r), g, a) <==>
            if !AtOrBelow(st, g, r.file) then AtOrBelow(st, g, a)
            else (AtOrBelow(st, g, a) && AtOrBelow(st, a, r.file)) || (r.dest.Some? && AtOrBelow(st, r.dest.value, a))
  {
    var par := ParentsOf(st);
    assert ParentsOf(Rehang(st, r)) == par[r.file := r.dest] && ParentsOf(Rehang(st, r)).Keys == par.Keys;
    if AtOrBelow(st, g, r.file) {
      var n: nat :| Climbs(par, par.Keys, g, r.file, n);
      ReachesInside(par, r.file, r.dest, g, a, n);
    } else {
      ReachesOutside(par, r.file, r.dest, g, a);
    }
  }

  lemma CoverAfterMove(st: Server, r: MoveRequest, u: User, g: Id)
    requires Sound(st) && r.file in st.files
    requires r.dest.Some? ==> !AtOrBelow(st, r.dest.value, r.file)
    ensures Covered(Rehang(st, r), u, g) <==>
            if !AtOrBelow(st, g, r.file) then Covered(st, u, g)
            else CoveredInside(st, u, g, r.file) || (r.dest.Some? && Covered(st, u, r.dest.value))
  {
    var st' := Rehang(st, r);
    if Covered(st', u, g) {
      var a :| (a, u) in st'.grants && Reaches(ParentsOf(st'), ParentsOf(st').Keys, g, a);
      assert AtOrBelow(st', g, a);
      AboveAfterMove(st, r, g, a);
    }
    if !AtOrBelow(st, g, r.file) && Covered(st, u, g) {
      var a :| (a, u) in st.grants && Reaches(ParentsOf(st), ParentsOf(st).Keys, g, a);
      AboveAfterMove(st, r, g, a);
    }
    if AtOrBelow(st, g, r.file) && CoveredInside(st, u, g, r.file) {
      var a :| (a, u) in st.grants && AtOrBelow(st, g, a) && AtOrBelow(st, a, r.file);
      AboveAfterMove(st, r, g, a);
    }
    if AtOrBelow(st, g, r.file) && r.dest.Some? && Covered(st, u, r.dest.value) {
      var a :| (a, u) in st.grants && Reaches(ParentsOf(st), ParentsOf(st).Keys, r.dest.value, a);
      AboveAfterMove(st, r, g, a);
    }
  }

  /** After a move the rows moved are read through grants among them and through the new place; no other row changes. */
  lemma MoveReaders(st: Server, r: MoveRequest, u: User, g: Id)
    requires Sound(st) && MayMove(st, r) && MoveCurrent(st, r)
    ensures CanRead(Move(st, r), u, g) <==>
            if !AtOrBelow(st, g, r.file) then CanRead(st, u, g)
            else CoveredInside(st, u, g, r.file) || (r.dest.Some? && CanRead(st, u, r.dest.value))
  {
    MoveChecksAre(st, r);
    MoveStaysSound(st, r);
    MoveChecks(st, r);
    CanReadIfCovered(Move(st, r), u, g);
    CanReadIfCovered(st, u, g);
    if r.dest.Some? {
      CanReadIfCovered(st, u, r.dest.value);
      BelowIsSubtree(st, r.dest.value, r.file);
    }
    CoverAfterMove(st, r, u, g);
    if AtOrBelow(st, g, r.file) {
      AncestorsAreRows(st, g, r.file);
    }
  }
}
