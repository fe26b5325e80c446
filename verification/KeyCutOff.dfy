/**
 What a rotation keeps out of reach. Given any set of learned secrets and every wrap the
 server stores after an accepted commit, exactly which keys follow, whatever the client
 had seen when it built the commit.
 */
module KeyCutOff {
  import opened Common
  import opened Forest
  import opened KeyTree
  import opened KeyCommits
  import opened KeyRotation
  import opened KeyAccess

  // -------------------------------------------------------------------
  // Where learned secrets get in
  // -------------------------------------------------------------------

  /** A child of the rotated folder that the client did not list keeps its claim under the old key. */
  predicate LeftOpen(st: Server, f: Id, v: View, known: set<Secret>, c: Id)
    requires f in st.files
  {
    && c in st.files && st.files[c].parent == Some(f) && !ListsChild(v, c)
    && Private(st.files[f].pub) in known
  }

  /** A row other than the rotated one that is entered from `known`. */
  ghost predicate Anchor(st: Server, f: Id, v: View, known: set<Secret>, a: Id)
    requires f in st.files
  {
    a != f && (Entry(st, known, a) || LeftOpen(st, f, v, known, a))
  }

  /** Some anchor leads to the file without passing the rotated row. */
  ghost predicate Held(st: Server, f: Id, v: View, known: set<Secret>, g: Id)
    requires f in st.files
  {
    exists a :: Anchor(st, f, v, known, a) && Reaches(ParentsOf(st), ParentsOf(st).Keys - {f}, g, a)
  }

  /** The key is known, or is the current key of a file that is held. */
  ghost predicate HasKey(st: Server, f: Id, v: View, known: set<Secret>, k: Key)
    requires f in st.files
  {
    Private(k) in known || exists h :: h in st.files && h != f && st.files[h].pub == k && Held(st, f, v, known, h)
  }

  /**
   The new private key is within reach: known already, granted to a remaining user whose
   key is known, or claimed under a parent's key, as the client saw it, that is within
   reach.
   */
  ghost predicate NewKeyInReach(st: Server, f: Id, v: View, pub: Key, revoked: User, start: set<Secret>)
    requires f in st.files
  {
    || Private(pub) in start
    || (exists u :: u != revoked && (f, u) in st.grants && Private(UserKey(u)) in start)
    || (v.parentPub.Some? && HasKey(st, f, v, start, v.parentPub.value))
  }

  /** The keys of the children as the client saw them, which the commit wraps under the new key. */
  ghost function WrappedUnderNewKey(st: Server, f: Id, v: View): set<Secret> {
    set i, s | 0 <= i < |v.children| && v.children[i].id in st.files && st.files[v.children[i].id].parent == Some(f)
               && s in SecretsOf(v.children[i].keys) :: s
  }

  /** What is known in the end apart from the keys of files that are held. */
  ghost function Learns(st: Server, f: Id, v: View, pub: Key, session: Session, revoked: User,
                        start: set<Secret>): set<Secret>
    requires f in st.files
  {
    if NewKeyInReach(st, f, v, pub, revoked, start)
    then start + SecretsOf(Keys(session, pub)) + WrappedUnderNewKey(st, f, v) else start
  }

  // -------------------------------------------------------------------
  // The stored wraps after a commit
  // -------------------------------------------------------------------

  /** The claim of one row: the rotated one's is new, its listed children's are rewrapped, all others stay. */
  predicate ClaimCut(st: Server, st': Server, f: Id, v: View, k: Keys, g: Id)
    requires g in st.files && g in st'.files
  {
    var claim := st'.files[g].claim;
    if g == f then
      && (claim.Some? <==> v.parentPub.Some?)
      && (claim.Some? ==> claim.value.box.recipient == v.parentPub.value && claim.value.box.payload == k)
    else if st.files[g].parent == Some(f) && ListsChild(v, g) then
      claim.Some? && claim.value.box.recipient == k.priv && SeenAs(v, g, claim.value.box.payload)
    else claim == st.files[g].claim
  }

  predicate RowCut(st: Server, st': Server, f: Id, v: View, k: Keys, g: Id)
    requires g in st.files && g in st'.files
  {
    && ClaimCut(st, st', f, v, k, g)
    && st'.files[g].pub == st'.files[g].sessionBox.recipient == (if g == f then k.priv else st.files[g].pub)
    && st'.files[g].sessionBox.payload == if g == f then k.session else st.files[g].sessionBox.payload
  }

  predicate GrantCut(st: Server, st': Server, f: Id, k: Keys, g: Id, u: User)
    requires (g, u) in st'.grants && g in st.files
  {
    var box := st'.grants[(g, u)].box;
    box.recipient == UserKey(u) && box.payload == if g == f then k.priv else st.files[g].pub
  }

  ghost predicate CutOver(st: Server, st': Server, f: Id, v: View, k: Keys, revoked: User) {
    && f in st.files && st'.files.Keys == st.files.Keys
    && (forall g :: g in st.files ==> RowCut(st, st', f, v, k, g))
    && (forall g, u :: (g, u) in st'.grants <==> (g, u) in st.grants && (g, u) != (f, revoked))
    && (forall g, u :: (g, u) in st'.grants ==> g in st.files && GrantCut(st, st', f, k, g, u))
  }

  lemma SeenIsListed(v: View, c: Id)
    ensures forall k :: SeenAs(v, c, k) ==> ListsChild(v, c)
  {
    forall k | SeenAs(v, c, k)
      ensures ListsChild(v, c)
    {
      var i :| 0 <= i < |v.children| && v.children[i] == SeenChild(c, k);
    }
  }

  lemma RowIsCut(st: Server, caller: User, f: Id, v: View, pub: Key, session: Session, revoked: User,
                 st': Server, g: Id)
    requires Sound(st) && Owns(st, f, caller) && ListsOnce(v) && g in st.files
    requires RowsCommitted(st, f, Build(caller, v, pub, session, revoked), st')
    ensures RowCut(st, st', f, v, Keys(session, pub), g)
  {
    var p := Build(caller, v, pub, session, revoked);
    assert st'.files[g] == RowAfter(st, f, p, g) && RowSound(st, g);
    if g != f && st.files[g].parent == Some(f) {
      RewrapIsWhatWasSeen(caller, v, pub, g);
      RewrapOfMember(p.rewraps, g);
      assert RewrapOf(p.rewraps, g).Some? ==> SeenAs(v, g, RewrapOf(p.rewraps, g).value.box.payload);
      assert forall k :: SeenAs(v, g, k) ==> ListsChild(v, g) by { SeenIsListed(v, g); }
      if ListsChild(v, g) {
        var i :| 0 <= i < |v.children| && v.children[i].id == g;
        assert p.rewraps[i].id == g;
      }
    }
  }

  lemma CommitCutsOver(st: Server, caller: User, f: Id, v: View, pub: Key, session: Session, revoked: User, st': Server)
    requires Sound(st) && Owns(st, f, caller) && ListsOnce(v)
    requires AclVerdict(st, caller, f, Build(caller, v, pub, session, revoked)) == Ok
    requires IsCommitted(st, f, Build(caller, v, pub, session, revoked), st')
    ensures CutOver(st, st', f, v, Keys(session, pub), revoked)
  {
    forall g | g in st.files
      ensures RowCut(st, st', f, v, Keys(session, pub), g)
    {
      RowIsCut(st, caller, f, v, pub, session, revoked, st', g);
    }
    GrantsLeftSound(st, caller, f, v, pub, session, revoked, st');
    forall g: Id, u: User | (g, u) in st'.grants
      ensures g in st.files && GrantCut(st, st', f, Keys(session, pub), g, u)
    {
      assert GrantSound(st', g, u) && RowCut(st, st', f, v, Keys(session, pub), g);
    }
  }

  // -------------------------------------------------------------------
  // What follows
  // -------------------------------------------------------------------

  predicate ParentKnown(st: Server, f: Id, known: set<Secret>, p: Id) {
    p != f && p in st.files && Private(st.files[p].pub) in known
  }

  /** Away from the rotated row, a known key leads to the session key and to the keys of the children. */
  ghost predicate FlowsDown(st: Server, f: Id, known: set<Secret>) {
    && (forall g :: g in st.files && g != f && Private(st.files[g].pub) in known ==>
          SecretsOf(TrueKeys(st.files[g])) <= known)
    && (forall g, p :: g in st.files && g != f && st.files[g].parent == Some(p) && ParentKnown(st, f, known, p) ==>
          SecretsOf(TrueKeys(st.files[g])) <= known)
  }

  lemma FlowsFromParent(st: Server, st': Server, f: Id, v: View, k: Keys, known: set<Secret>, g: Id)
    requires Closed(st', known) && g in st.files && g in st'.files && g != f && st.files[g].parent.Some?
    requires ClaimSound(st, g) && ClaimCut(st, st', f, v, k, g) && ParentKnown(st, f, known, st.files[g].parent.value)
    ensures SecretsOf(TrueKeys(st.files[g])) <= known
  {
    assert st'.files[g].claim == st.files[g].claim;
  }

  lemma FlowsFromOwnKey(st: Server, st': Server, f: Id, v: View, k: Keys, known: set<Secret>, g: Id)
    requires Closed(st', known) && g in st.files && g in st'.files && g != f
    requires RowCut(st, st', f, v, k, g) && Private(st.files[g].pub) in known
    ensures SecretsOf(TrueKeys(st.files[g])) <= known
  {
  }

  lemma KnowledgeFlowsDown(st: Server, st': Server, f: Id, v: View, k: Keys, revoked: User, known: set<Secret>)
    requires Sound(st) && CutOver(st, st', f, v, k, revoked) && Closed(st', known)
    ensures FlowsDown(st, f, known)
  {
    forall g | g in st.files && g != f
      ensures Private(st.files[g].pub) in known ==> SecretsOf(TrueKeys(st.files[g])) <= known
      ensures st.files[g].parent.Some? && ParentKnown(st, f, known, st.files[g].parent.value) ==>
                SecretsOf(TrueKeys(st.files[g])) <= known
    {
      assert ClaimSound(st, g) && RowCut(st, st', f, v, k, g);
      if Private(st.files[g].pub) in known {
        FlowsFromOwnKey(st, st', f, v, k, known, g);
      }
      if st.files[g].parent.Some? && ParentKnown(st, f, known, st.files[g].parent.value) {
        FlowsFromParent(st, st', f, v, k, known, g);
      }
    }
  }

  lemma {:induction false} LeadsDown(st: Server, f: Id, known: set<Secret>, g: Id, a: Id, n: nat)
    requires FlowsDown(st, f, known) && a in st.files && Private(st.files[a].pub) in known
    requires Climbs(ParentsOf(st), ParentsOf(st).Keys - {f}, g, a, n)
    ensures SecretsOf(TrueKeys(st.files[g])) <= known
    decreases n
  {
    if n > 0 {
      LeadsDown(st, f, known, st.files[g].parent.value, a, n - 1);
      assert ParentKnown(st, f, known, st.files[g].parent.value);
    }
  }

  lemma LeftOpenIsKnown(st: Server, st': Server, f: Id, v: View, k: Keys, start: set<Secret>, known: set<Secret>, a: Id)
    requires f in st.files && LeftOpen(st, f, v, start, a) && a != f && a in st'.files
    requires ClaimSound(st, a) && ClaimCut(st, st', f, v, k, a) && start <= known && Closed(st', known)
    ensures Private(st.files[a].pub) in known
  {
    assert st'.files[a].claim == st.files[a].claim;
  }

  lemma EntryIsKnownAfter(st: Server, st': Server, f: Id, v: View, k: Keys, revoked: User, start: set<Secret>,
                          known: set<Secret>, a: Id)
    requires CutOver(st, st', f, v, k, revoked) && start <= known && Closed(st', known) && a != f && Entry(st, start, a)
    ensures Private(st.files[a].pub) in known
  {
    if Private(st.files[a].pub) !in start {
      var x :| (a, x) in st.grants && Private(UserKey(x)) in start;
      assert (a, x) in st'.grants && GrantCut(st, st', f, k, a, x);
    }
  }

  lemma AnchorIsKnown(st: Server, st': Server, f: Id, v: View, k: Keys, revoked: User, start: set<Secret>,
                      known: set<Secret>, a: Id)
    requires Sound(st) && CutOver(st, st', f, v, k, revoked) && start <= known && Closed(st', known)
    requires Anchor(st, f, v, start, a)
    ensures a in st.files && Private(st.files[a].pub) in known
  {
    if Entry(st, start, a) {
      EntryIsKnownAfter(st, st', f, v, k, revoked, start, known, a);
    } else {
      assert ClaimSound(st, a) && RowCut(st, st', f, v, k, a);
      LeftOpenIsKnown(st, st', f, v, k, start, known, a);
    }
  }

  lemma HeldIsKnown(st: Server, st': Server, f: Id, v: View, k: Keys, revoked: User, start: set<Secret>,
                    known: set<Secret>, g: Id)
    requires Sound(st) && CutOver(st, st', f, v, k, revoked) && start <= known && Closed(st', known)
    requires Held(st, f, v, start, g)
    ensures g in st.files && SecretsOf(TrueKeys(st.files[g])) <= known
  {
    var a :| Anchor(st, f, v, start, a) && Reaches(ParentsOf(st), ParentsOf(st).Keys - {f}, g, a);
    var n: nat :| Climbs(ParentsOf(st), ParentsOf(st).Keys - {f}, g, a, n);
    AnchorIsKnown(st, st', f, v, k, revoked, start, known, a);
    KnowledgeFlowsDown(st, st', f, v, k, revoked, known);
    LeadsDown(st, f, known, g, a, n);
  }

  lemma NewKeyIsKnown(st: Server, st': Server, f: Id, v: View, k: Keys, revoked: User, start: set<Secret>,
                      known: set<Secret>)
    requires Sound(st) && CutOver(st, st', f, v, k, revoked) && start <= known && Closed(st', known)
    requires NewKeyInReach(st, f, v, k.priv, revoked, start)
    ensures SecretsOf(k) <= known
  {
    assert RowCut(st, st', f, v, k, f);
    if Private(k.priv) !in start {
      if u :| u != revoked && (f, u) in st.grants && Private(UserKey(u)) in start {
        assert (f, u) in st'.grants && GrantCut(st, st', f, k, f, u);
      } else if Private(v.parentPub.value) !in start {
        var h :| h in st.files && h != f && st.files[h].pub == v.parentPub.value && Held(st, f, v, start, h);
        HeldIsKnown(st, st', f, v, k, revoked, start, known, h);
      }
    }
  }

  lemma RewrapIsKnown(st: Server, st': Server, f: Id, v: View, k: Keys, revoked: User, known: set<Secret>, i: nat)
    requires Sound(st) && CutOver(st, st', f, v, k, revoked) && Closed(st', known) && ListsOnce(v)
    requires Private(k.priv) in known && i < |v.children|
    requires v.children[i].id in st.files && st.files[v.children[i].id].parent == Some(f)
    ensures SecretsOf(v.children[i].keys) <= known
  {
    var c := v.children[i].id;
    NotOwnParent(st, f);
    assert ListsChild(v, c) && RowCut(st, st', f, v, k, c);
    var j :| 0 <= j < |v.children| && v.children[j] == SeenChild(c, st'.files[c].claim.value.box.payload);
    assert i == j;
  }

  /** With the new key known, so is what was wrapped under it. */
  lemma WrappedIsKnown(st: Server, st': Server, f: Id, v: View, k: Keys, revoked: User, known: set<Secret>)
    requires Sound(st) && CutOver(st, st', f, v, k, revoked) && Closed(st', known) && ListsOnce(v)
    requires Private(k.priv) in known
    ensures WrappedUnderNewKey(st, f, v) <= known
  {
    forall s | s in WrappedUnderNewKey(st, f, v)
      ensures s in known
    {
      var i :| 0 <= i < |v.children| && v.children[i].id in st.files && st.files[v.children[i].id].parent == Some(f)
               && s in SecretsOf(v.children[i].keys);
      RewrapIsKnown(st, st', f, v, k, revoked, known, i);
    }
  }

  lemma LearnsIsKnown(st: Server, st': Server, f: Id, v: View, k: Keys, revoked: User, start: set<Secret>,
                      known: set<Secret>)
    requires Sound(st) && CutOver(st, st', f, v, k, revoked) && Closed(st', known) && ListsOnce(v) && start <= known
    ensures Learns(st, f, v, k.priv, k.session, revoked, start) <= known
  {
    if NewKeyInReach(st, f, v, k.priv, revoked, start) {
      NewKeyIsKnown(st, st', f, v, k, revoked, start, known);
      WrappedIsKnown(st, st', f, v, k, revoked, known);
    }
  }

  // -------------------------------------------------------------------
  // And nothing else
  // -------------------------------------------------------------------

  /** The known secrets and the keys of everything held. */
  ghost function HarvestAround(st: Server, f: Id, v: View, known: set<Secret>): set<Secret>
    requires f in st.files
  {
    known
    + (set g | g in st.files && g != f && Held(st, f, v, known, g) :: Private(st.files[g].pub))
    + (set g | g in st.files && g != f && Held(st, f, v, known, g) :: SessionKey(st.files[g].sessionBox.payload))
  }

  lemma InHarvest(st: Server, f: Id, v: View, known: set<Secret>, g: Id)
    requires f in st.files && g in st.files && g != f && Held(st, f, v, known, g)
    ensures SecretsOf(TrueKeys(st.files[g])) <= HarvestAround(st, f, v, known)
  {
  }

  lemma SelfAnchored(st: Server, f: Id, v: View, known: set<Secret>, g: Id)
    requires f in st.files && Anchor(st, f, v, known, g)
    ensures Held(st, f, v, known, g)
  {
    assert Climbs(ParentsOf(st), ParentsOf(st).Keys - {f}, g, g, 0);
  }

  lemma HeldBelow(st: Server, f: Id, v: View, known: set<Secret>, g: Id)
    requires f in st.files && g in st.files && g != f && st.files[g].parent.Some?
    requires Held(st, f, v, known, st.files[g].parent.value)
    ensures Held(st, f, v, known, g)
  {
    var par, ok := ParentsOf(st), ParentsOf(st).Keys - {f};
    var a :| Anchor(st, f, v, known, a) && Reaches(par, ok, st.files[g].parent.value, a);
    var n: nat :| Climbs(par, ok, st.files[g].parent.value, a, n);
    assert Climbs(par, ok, g, a, n + 1);
  }

  /** A private key of a file in the harvest is that of a held file. */
  lemma HarvestedIsHeld(st: Server, f: Id, v: View, known: set<Secret>, g: Id)
    requires Sound(st) && f in st.files && g in st.files && g != f
    requires Private(st.files[g].pub) in HarvestAround(st, f, v, known)
    ensures Held(st, f, v, known, g)
  {
    if Private(st.files[g].pub) in known {
      SelfAnchored(st, f, v, known, g);
    }
  }

  /** The old key of the folder, and keys of no file, are in the harvest only if known. */
  lemma HarvestedOldKey(st: Server, f: Id, v: View, known: set<Secret>, key: Key)
    requires Sound(st) && f in st.files && Private(key) in HarvestAround(st, f, v, known)
    requires forall g :: g in st.files && g != f ==> st.files[g].pub != key
    ensures Private(key) in known
  {
  }

  lemma HarvestClosedForGrants(st: Server, st': Server, f: Id, v: View, k: Keys, revoked: User,
                               start: set<Secret>, x: (Id, User))
    requires Sound(st) && CutOver(st, st', f, v, k, revoked) && Fresh(st, k.priv)
    requires x in st'.grants
    requires var known := Learns(st, f, v, k.priv, k.session, revoked, start);
             Private(st'.grants[x].box.recipient) in HarvestAround(st, f, v, known)
    ensures var known := Learns(st, f, v, k.priv, k.session, revoked, start);
            Private(st'.grants[x].box.payload) in HarvestAround(st, f, v, known)
  {
    var known := Learns(st, f, v, k.priv, k.session, revoked, start);
    var (g, u) := x;
    assert x == (g, u) && GrantCut(st, st', f, k, g, u);
    assert forall h :: h in st.files ==> RowSound(st, h) && st.files[h].pub != UserKey(u);
    HarvestedOldKey(st, f, v, known, UserKey(u));
    if g == f {
      assert (f, u) in st.grants && u != revoked;
      if Private(UserKey(u)) in start {
        assert NewKeyInReach(st, f, v, k.priv, revoked, start);
      }
      assert Private(k.priv) in known;
    } else {
      assert Entry(st, known, g);
      SelfAnchored(st, f, v, known, g);
      InHarvest(st, f, v, known, g);
    }
  }

  /** The new key is in the harvest only if it is in reach. */
  lemma HarvestedNewKey(st: Server, f: Id, v: View, k: Keys, revoked: User, start: set<Secret>)
    requires Sound(st) && f in st.files && Fresh(st, k.priv)
    requires Private(k.priv) in HarvestAround(st, f, v, Learns(st, f, v, k.priv, k.session, revoked, start))
    ensures NewKeyInReach(st, f, v, k.priv, revoked, start)
  {
    HarvestedOldKey(st, f, v, Learns(st, f, v, k.priv, k.session, revoked, start), k.priv);
  }

  lemma HarvestHasKey(st: Server, f: Id, v: View, known: set<Secret>, key: Key)
    requires f in st.files && Private(key) in HarvestAround(st, f, v, known)
    ensures HasKey(st, f, v, known, key)
  {
  }

  lemma HarvestedParentKey(st: Server, f: Id, v: View, k: Keys, revoked: User, start: set<Secret>)
    requires f in st.files && v.parentPub.Some?
    requires Private(v.parentPub.value) in HarvestAround(st, f, v, Learns(st, f, v, k.priv, k.session, revoked, start))
    ensures NewKeyInReach(st, f, v, k.priv, revoked, start)
  {
    var known := Learns(st, f, v, k.priv, k.session, revoked, start);
    HarvestHasKey(st, f, v, known, v.parentPub.value);
    assert known == start || NewKeyInReach(st, f, v, k.priv, revoked, start);
  }

  lemma HarvestClosedForOldClaims(st: Server, f: Id, v: View, known: set<Secret>, g: Id)
    requires Sound(st) && f in st.files && g in st.files && g != f && st.files[g].claim.Some?
    requires st.files[g].parent == Some(f) ==> !ListsChild(v, g)
    requires Private(st.files[g].claim.value.box.recipient) in HarvestAround(st, f, v, known)
    ensures SecretsOf(st.files[g].claim.value.box.payload) <= HarvestAround(st, f, v, known)
  {
    assert ClaimSound(st, g);
    if st.files[g].parent == Some(f) {
      HarvestedOldKey(st, f, v, known, st.files[f].pub);
      assert LeftOpen(st, f, v, known, g);
      SelfAnchored(st, f, v, known, g);
    } else {
      HarvestedIsHeld(st, f, v, known, st.files[g].parent.value);
      HeldBelow(st, f, v, known, g);
    }
    InHarvest(st, f, v, known, g);
  }

  lemma SeenIsWrapped(st: Server, f: Id, v: View, c: Id, keys: Keys)
    requires c in st.files && st.files[c].parent == Some(f) && SeenAs(v, c, keys)
    ensures SecretsOf(keys) <= WrappedUnderNewKey(st, f, v)
  {
    var i :| 0 <= i < |v.children| && v.children[i] == SeenChild(c, keys);
    assert v.children[i].id == c && v.children[i].keys == keys;
  }

  lemma HarvestClosedForClaims(st: Server, st': Server, f: Id, v: View, k: Keys, revoked: User,
                               start: set<Secret>, g: Id)
    requires Sound(st) && CutOver(st, st', f, v, k, revoked) && Fresh(st, k.priv)
    requires g in st'.files && st'.files[g].claim.Some?
    requires var known := Learns(st, f, v, k.priv, k.session, revoked, start);
             Private(st'.files[g].claim.value.box.recipient) in HarvestAround(st, f, v, known)
    ensures var known := Learns(st, f, v, k.priv, k.session, revoked, start);
            SecretsOf(st'.files[g].claim.value.box.payload) <= HarvestAround(st, f, v, known)
  {
    var known := Learns(st, f, v, k.priv, k.session, revoked, start);
    assert RowCut(st, st', f, v, k, g);
    if g == f {
      HarvestedParentKey(st, f, v, k, revoked, start);
    } else if st.files[g].parent == Some(f) && ListsChild(v, g) {
      HarvestedNewKey(st, f, v, k, revoked, start);
      SeenIsWrapped(st, f, v, g, st'.files[g].claim.value.box.payload);
    } else {
      HarvestClosedForOldClaims(st, f, v, known, g);
    }
  }

  lemma HarvestClosedForSessions(st: Server, st': Server, f: Id, v: View, k: Keys, revoked: User,
                                 start: set<Secret>, g: Id)
    requires Sound(st) && CutOver(st, st', f, v, k, revoked) && Fresh(st, k.priv) && g in st'.files
    requires var known := Learns(st, f, v, k.priv, k.session, revoked, start);
             Private(st'.files[g].sessionBox.recipient) in HarvestAround(st, f, v, known)
    ensures var known := Learns(st, f, v, k.priv, k.session, revoked, start);
            SessionKey(st'.files[g].sessionBox.payload) in HarvestAround(st, f, v, known)
  {
    var known := Learns(st, f, v, k.priv, k.session, revoked, start);
    assert RowCut(st, st', f, v, k, g);
    if g == f {
      HarvestedNewKey(st, f, v, k, revoked, start);
    } else {
      HarvestedIsHeld(st, f, v, known, g);
      InHarvest(st, f, v, known, g);
    }
  }

  lemma HarvestAroundIsClosed(st: Server, st': Server, f: Id, v: View, k: Keys, revoked: User, start: set<Secret>)
    requires Sound(st) && CutOver(st, st', f, v, k, revoked) && Fresh(st, k.priv)
    ensures Closed(st', HarvestAround(st, f, v, Learns(st, f, v, k.priv, k.session, revoked, start)))
  {
    var known := Learns(st, f, v, k.priv, k.session, revoked, start);
    var all := HarvestAround(st, f, v, known);
    forall x | x in st'.grants && Private(st'.grants[x].box.recipient) in all
      ensures Private(st'.grants[x].box.payload) in all
    {
      HarvestClosedForGrants(st, st', f, v, k, revoked, start, x);
    }
    forall g | g in st'.files && Private(st'.files[g].sessionBox.recipient) in all
      ensures SessionKey(st'.files[g].sessionBox.payload) in all
    {
      HarvestClosedForSessions(st, st', f, v, k, revoked, start, g);
    }
    forall g | g in st'.files && st'.files[g].claim.Some? && Private(st'.files[g].claim.value.box.recipient) in all
      ensures SecretsOf(st'.files[g].claim.value.box.payload) <= all
    {
      HarvestClosedForClaims(st, st', f, v, k, revoked, start, g);
    }
  }

  // -------------------------------------------------------------------
  // The theorem
  // -------------------------------------------------------------------

  lemma NewKeyDerivable(st: Server, st': Server, f: Id, v: View, k: Keys, revoked: User, start: set<Secret>)
    requires Sound(st) && CutOver(st, st', f, v, k, revoked) && Fresh(st, k.priv)
    ensures Derivable(st', start, Private(k.priv)) <==> NewKeyInReach(st, f, v, k.priv, revoked, start)
  {
    if NewKeyInReach(st, f, v, k.priv, revoked, start) {
      forall known: set<Secret> | start <= known && Closed(st', known)
        ensures Private(k.priv) in known
      {
        NewKeyIsKnown(st, st', f, v, k, revoked, start, known);
      }
    } else if Derivable(st', start, Private(k.priv)) {
      HarvestAroundIsClosed(st, st', f, v, k, revoked, start);
      HarvestedNewKey(st, f, v, k, revoked, start);
    }
  }

  lemma FileKeyDerivable(st: Server, st': Server, f: Id, v: View, k: Keys, revoked: User, start: set<Secret>, d: Id)
    requires Sound(st) && CutOver(st, st', f, v, k, revoked) && Fresh(st, k.priv) && ListsOnce(v)
    requires d in st.files && d != f
    ensures Derivable(st', start, Private(st.files[d].pub)) <==>
            Held(st, f, v, Learns(st, f, v, k.priv, k.session, revoked, start), d)
  {
    var learns := Learns(st, f, v, k.priv, k.session, revoked, start);
    if Held(st, f, v, learns, d) {
      forall known: set<Secret> | start <= known && Closed(st', known)
        ensures Private(st.files[d].pub) in known
      {
        LearnsIsKnown(st, st', f, v, k, revoked, start, known);
        HeldIsKnown(st, st', f, v, k, revoked, learns, known, d);
      }
    } else if Derivable(st', start, Private(st.files[d].pub)) {
      HarvestAroundIsClosed(st, st', f, v, k, revoked, start);
      HarvestedIsHeld(st, f, v, learns, d);
    }
  }

  lemma FreshSessionNotHarvested(st: Server, f: Id, v: View, k: Keys, revoked: User, start: set<Secret>)
    requires f in st.files && !NewKeyInReach(st, f, v, k.priv, revoked, start)
    requires SessionKey(k.session) !in start
    requires forall g :: g in st.files ==> st.files[g].sessionBox.payload != k.session
    ensures SessionKey(k.session) !in HarvestAround(st, f, v, Learns(st, f, v, k.priv, k.session, revoked, start))
  {
  }

  lemma NewSessionDerivable(st: Server, st': Server, f: Id, v: View, k: Keys, revoked: User, start: set<Secret>)
    requires Sound(st) && CutOver(st, st', f, v, k, revoked) && Fresh(st, k.priv)
    requires SessionKey(k.session) !in start
    requires forall g :: g in st.files ==> st.files[g].sessionBox.payload != k.session
    ensures Derivable(st', start, SessionKey(k.session)) <==> NewKeyInReach(st, f, v, k.priv, revoked, start)
  {
    if NewKeyInReach(st, f, v, k.priv, revoked, start) {
      forall known: set<Secret> | start <= known && Closed(st', known)
        ensures SessionKey(k.session) in known
      {
        NewKeyIsKnown(st, st', f, v, k, revoked, start, known);
      }
    } else {
      HarvestAroundIsClosed(st, st', f, v, k, revoked, start);
      FreshSessionNotHarvested(st, f, v, k, revoked, start);
    }
  }

  /**
   After any accepted commit of either route, from any learned secrets: the new private
   key and the new session key follow exactly if the new key is in reach, and the key of
   any other file exactly if it is held.
   */
  lemma DerivableAfterCommit(st: Server, caller: User, f: Id, v: View, pub: Key, session: Session, revoked: User,
                             start: set<Secret>, d: Id)
    requires Sound(st) && Fresh(st, pub) && ListsOnce(v) && Owns(st, f, caller)
    requires AclVerdict(st, caller, f, Build(caller, v, pub, session, revoked)) == Ok
    ensures var st' := ExecuteAll(st, Statements(f, Build(caller, v, pub, session, revoked)));
            && (Derivable(st', start, Private(pub)) <==> NewKeyInReach(st, f, v, pub, revoked, start))
            && (SessionKey(session) !in start
                && (forall g :: g in st.files ==> st.files[g].sessionBox.payload != session) ==>
                  (Derivable(st', start, SessionKey(session)) <==> NewKeyInReach(st, f, v, pub, revoked, start)))
            && (d in st.files && d != f ==>
                  && d in st'.files && st'.files[d].pub == st.files[d].pub
                  && (Derivable(st', start, Private(st.files[d].pub)) <==>
                      Held(st, f, v, Learns(st, f, v, pub, session, revoked, start), d)))
  {
    var st' := ExecuteAll(st, Statements(f, Build(caller, v, pub, session, revoked)));
    CommitSucceeds(st, caller, f, v, pub, session, revoked);
    CommitCutsOver(st, caller, f, v, pub, session, revoked, st');
    NewKeyDerivable(st, st', f, v, Keys(session, pub), revoked, start);
    if SessionKey(session) !in start && forall g :: g in st.files ==> st.files[g].sessionBox.payload != session {
      NewSessionDerivable(st, st', f, v, Keys(session, pub), revoked, start);
    }
    if d in st.files && d != f {
      assert RowCut(st, st', f, v, Keys(session, pub), d);
      FileKeyDerivable(st, st', f, v, Keys(session, pub), revoked, start, d);
    }
  }

  // -------------------------------------------------------------------
  // The revoked user
  // -------------------------------------------------------------------

  /** An anchor strictly below the rotated row and at or above the file. */
  ghost predicate AnchorBetween(st: Server, f: Id, v: View, known: set<Secret>, d: Id)
    requires f in st.files
  {
    exists a :: Anchor(st, f, v, known, a) && Reaches(ParentsOf(st), ParentsOf(st).Keys, d, a)
                && Reaches(ParentsOf(st), ParentsOf(st).Keys, a, f)
  }

  /** A climb that avoids `f` ends before the climb to `f` does. */
  lemma {:induction false} EndsBelow(par: Parents, d: Id, a: Id, f: Id, n: nat, m: nat)
    requires Climbs(par, par.Keys - {f}, d, a, n) && Climbs(par, par.Keys, d, f, m)
    ensures n < m && Climbs(par, par.Keys, a, f, m - n)
    decreases n
  {
    if n > 0 {
      EndsBelow(par, par[d].value, a, f, n - 1, m - 1);
    }
  }

  lemma {:induction false} ClimbsAround(par: Parents, rank: map<Id, nat>, d: Id, a: Id, f: Id, n: nat, m: nat)
    requires Ranked(par, rank) && a != f && Climbs(par, par.Keys, d, a, n) && Climbs(par, par.Keys, a, f, m)
    ensures Climbs(par, par.Keys - {f}, d, a, n)
    decreases n
  {
    RankFalls(par, par.Keys, rank, d, a, n);
    RankFalls(par, par.Keys, rank, a, f, m);
    if n > 0 {
      ClimbsAround(par, rank, par[d].value, a, f, n - 1, m);
    }
  }

  lemma HeldBelowMeans(st: Server, f: Id, v: View, known: set<Secret>, d: Id)
    requires Acyclic(ParentsOf(st)) && f in st.files && Reaches(ParentsOf(st), ParentsOf(st).Keys, d, f)
    ensures Held(st, f, v, known, d) <==> AnchorBetween(st, f, v, known, d)
  {
    var par := ParentsOf(st);
    if Held(st, f, v, known, d) {
      var a :| Anchor(st, f, v, known, a) && Reaches(par, par.Keys - {f}, d, a);
      var n: nat :| Climbs(par, par.Keys - {f}, d, a, n);
      var m: nat :| Climbs(par, par.Keys, d, f, m);
      EndsBelow(par, d, a, f, n, m);
      ClimbsMonotone(par, par.Keys - {f}, par.Keys, d, a, n);
    }
    if AnchorBetween(st, f, v, known, d) {
      var rank :| Ranked(par, rank);
      var a :| Anchor(st, f, v, known, a) && Reaches(par, par.Keys, d, a) && Reaches(par, par.Keys, a, f);
      var n: nat :| Climbs(par, par.Keys, d, a, n);
      var m: nat :| Climbs(par, par.Keys, a, f, m);
      ClimbsAround(par, rank, d, a, f, n, m);
    }
  }

  /** Nothing above the rotated row was learned or is granted to a known user. */
  ghost predicate NothingAbove(st: Server, start: set<Secret>, f: Id) {
    forall a :: a != f && a in st.files && Reaches(ParentsOf(st), ParentsOf(st).Keys, f, a) ==> !Entry(st, start, a)
  }

  /** A parent's key that is still the parent's key is then out of reach. */
  lemma CurrentParentOutOfReach(st: Server, f: Id, v: View, start: set<Secret>)
    requires Sound(st) && f in st.files && ParentSeen(st, f, v) && NothingAbove(st, start, f) && v.parentPub.Some?
    ensures !HasKey(st, f, v, start, v.parentPub.value)
  {
    var par, p := ParentsOf(st), st.files[f].parent.value;
    NotOwnParent(st, f);
    assert Climbs(par, par.Keys, f, p, 1) by { assert Climbs(par, par.Keys, p, p, 0); }
    assert !Entry(st, start, p);
    forall h, a | h in st.files && st.files[h].pub == v.parentPub.value && Anchor(st, f, v, start, a)
      ensures !Reaches(par, par.Keys - {f}, h, a)
    {
      assert h == p;
      NoAnchorAbove(st, f, v, start, p, a);
    }
  }

  lemma NoAnchorAbove(st: Server, f: Id, v: View, start: set<Secret>, p: Id, a: Id)
    requires Sound(st) && f in st.files && NothingAbove(st, start, f) && Anchor(st, f, v, start, a)
    requires p in st.files && st.files[f].parent == Some(p)
    ensures !Reaches(ParentsOf(st), ParentsOf(st).Keys - {f}, p, a)
  {
    var par := ParentsOf(st);
    if Reaches(par, par.Keys - {f}, p, a) {
      var n: nat :| Climbs(par, par.Keys - {f}, p, a, n);
      ClimbsMonotone(par, par.Keys - {f}, par.Keys, p, a, n);
      assert Climbs(par, par.Keys, f, a, n + 1);
      var rank :| Ranked(par, rank);
      RankFalls(par, par.Keys, rank, f, a, n + 1);
    }
  }

  /** The secrets of one user who has learned no key that is only about to be made. */
  ghost predicate SecretsOfOne(start: set<Secret>, u: User, pub: Key) {
    && (forall x :: Private(UserKey(x)) in start ==> x == u)
    && Private(pub) !in start
  }

  /** For one user who has no grant on the rotated row any more, only the parent's key can lead to the new one. */
  lemma OnlyByTheParent(st: Server, f: Id, v: View, pub: Key, revoked: User, start: set<Secret>)
    requires Sound(st) && f in st.files && SecretsOfOne(start, revoked, pub)
    ensures NewKeyInReach(st, f, v, pub, revoked, start) <==>
            v.parentPub.Some? && HasKey(st, f, v, start, v.parentPub.value)
    ensures ParentSeen(st, f, v) && NothingAbove(st, start, f) ==> !NewKeyInReach(st, f, v, pub, revoked, start)
  {
    if ParentSeen(st, f, v) && NothingAbove(st, start, f) && v.parentPub.Some? {
      CurrentParentOutOfReach(st, f, v, start);
    }
  }

  /** The children the checks let a client leave out are the uploads in flight. */
  lemma LeftOpenIsInFlight(st: Server, caller: User, f: Id, v: View, pub: Key, session: Session, revoked: User,
                           known: set<Secret>, c: Id)
    requires f in st.files && FolderVerdict(st, caller, f, Build(caller, v, pub, session, revoked)) == Ok
    ensures LeftOpen(st, f, v, known, c) <==>
            c in st.files && st.files[c].parent == Some(f) && !st.files[c].uploadComplete
            && Private(st.files[f].pub) in known
  {
    assert c in CompleteChildren(st, f) <==> ListsChild(v, c) by {
      BuiltIds(caller, v, pub, session, revoked, c);
    }
  }

  /**
   Rotation cuts off the revoked user, exactly so far. With all they have learned and
   every wrap the server stores after any accepted folder commit: the new folder key and
   the new session key are within reach only if the parent's key that the client used is,
   which it is not if it was the current one and nothing above the folder is known. A
   descendant's key is within reach exactly through a row in between that was learned or
   is still granted to them, or that was being uploaded while they knew the old folder
   key; once the new key is within reach, what was wrapped under it counts as learned.
   */
  lemma RotationCutsOff(st: Server, caller: User, f: Id, v: View, pub: Key, session: Session, revoked: User,
                        start: set<Secret>, d: Id)
    requires Sound(st) && Fresh(st, pub) && ListsOnce(v) && SecretsOfOne(start, revoked, pub)
    requires FolderVerdict(st, caller, f, Build(caller, v, pub, session, revoked)) == Ok
    requires SessionKey(session) !in start && forall g :: g in st.files ==> st.files[g].sessionBox.payload != session
    requires d in st.files && d != f && Reaches(ParentsOf(st), ParentsOf(st).Keys, d, f)
    ensures var st' := CommitFolder(st, caller, f, Build(caller, v, pub, session, revoked)).1;
            var within := v.parentPub.Some? && HasKey(st, f, v, start, v.parentPub.value);
            && (Derivable(st', start, Private(pub)) <==> within)
            && (Derivable(st', start, SessionKey(session)) <==> within)
            && (ParentSeen(st, f, v) && NothingAbove(st, start, f) ==> !within)
            && d in st'.files && st'.files[d].pub == st.files[d].pub
            && (Derivable(st', start, Private(st'.files[d].pub)) <==>
                AnchorBetween(st, f, v, Learns(st, f, v, pub, session, revoked, start), d))
  {
    CommitRuns(st, caller, f, v, pub, session, revoked);
    OnlyByTheParent(st, f, v, pub, revoked, start);
    DerivableAfterCommit(st, caller, f, v, pub, session, revoked, start, d);
    HeldBelowMeans(st, f, v, Learns(st, f, v, pub, session, revoked, start), d);
  }

  /**
   The same for a file, which has nothing below it: neither of its new keys is within
   reach unless the parent's key that the client used is.
   */
  lemma FileRotationCutsOff(st: Server, caller: User, f: Id, v: View, pub: Key, session: Session, revoked: User,
                            start: set<Secret>)
    requires Sound(st) && Fresh(st, pub) && ListsOnce(v) && v.children == [] && SecretsOfOne(start, revoked, pub)
    requires FileVerdict(st, caller, f, Build(caller, v, pub, session, revoked)) == Ok
    requires SessionKey(session) !in start && forall g :: g in st.files ==> st.files[g].sessionBox.payload != session
    ensures var st' := CommitFile(st, caller, f, Build(caller, v, pub, session, revoked)).1;
            var within := v.parentPub.Some? && HasKey(st, f, v, start, v.parentPub.value);
            && (Derivable(st', start, Private(pub)) <==> within)
            && (Derivable(st', start, SessionKey(session)) <==> within)
            && (ParentSeen(st, f, v) && NothingAbove(st, start, f) ==> !within)
  {
    var p := Build(caller, v, pub, session, revoked);
    assert p.(rewraps := []) == p;
    CommitRuns(st, caller, f, v, pub, session, revoked);
    OnlyByTheParent(st, f, v, pub, revoked, start);
    DerivableAfterCommit(st, caller, f, v, pub, session, revoked, start, f);
  }

  // -------------------------------------------------------------------
  // Where the cut-off leaks
  // -------------------------------------------------------------------

  /** An upload in flight stays in reach of whoever knows the old folder key, opened before or not. */
  lemma InFlightStaysInReach(st: Server, caller: User, f: Id, v: View, pub: Key, session: Session, revoked: User,
                             start: set<Secret>, c: Id)
    requires Sound(st) && Fresh(st, pub) && ListsOnce(v)
    requires FolderVerdict(st, caller, f, Build(caller, v, pub, session, revoked)) == Ok
    requires c in st.files && st.files[c].parent == Some(f) && !st.files[c].uploadComplete
    requires Private(st.files[f].pub) in start
    ensures Derivable(CommitFolder(st, caller, f, Build(caller, v, pub, session, revoked)).1, start,
                      Private(st.files[c].pub))
  {
    var learns := Learns(st, f, v, pub, session, revoked, start);
    NotOwnParent(st, f);
    CommitRuns(st, caller, f, v, pub, session, revoked);
    DerivableAfterCommit(st, caller, f, v, pub, session, revoked, start, c);
    LeftOpenIsInFlight(st, caller, f, v, pub, session, revoked, learns, c);
    SelfAnchored(st, f, v, learns, c);
  }

  /** A claim under a parent's key that was learned, current or not, gives the new key away. */
  lemma LearnedParentKeyGivesAway(st: Server, caller: User, f: Id, v: View, pub: Key, session: Session, revoked: User,
                                  start: set<Secret>)
    requires Sound(st) && Fresh(st, pub) && ListsOnce(v)
    requires FolderVerdict(st, caller, f, Build(caller, v, pub, session, revoked)) == Ok
    requires v.parentPub.Some? && Private(v.parentPub.value) in start
    ensures Derivable(CommitFolder(st, caller, f, Build(caller, v, pub, session, revoked)).1, start, Private(pub))
  {
    CommitRuns(st, caller, f, v, pub, session, revoked);
    DerivableAfterCommit(st, caller, f, v, pub, session, revoked, start, f);
  }
}
