/**
 The rotate-commit route of files as a whole: next to the keys it replaces the version
 rows and the chunk rows, in seven separate statements. What a crash leaves behind, who
 can open it, and when the same request may be sent again.
 */
module KeyFileRoute {
  import opened Common
  import opened Forest
  import opened KeyTree
  import opened KeyWalk
  import opened KeyCommits
  import opened KeyRotation
  import opened KeyServer

  /** A chunk's key in storage, parsed; Malformed stands for text that does not parse. */
  datatype StorageKey = StorageKey(owner: User, file: Id, tag: string, sequence: nat) | Malformed(text: string)

  datatype NewChunk = NewChunk(sequence: nat, key: StorageKey)

  /** `version` is version_id, which is NULL where an upload was finished without a version row. */
  datatype ChunkRow = ChunkRow(file: Id, version: Option<nat>, sequence: nat, key: StorageKey)

  datatype VersionRow = VersionRow(file: Id, number: nat, session: Session)

  /** `current` is files.current_version_number. */
  datatype Store = Store(server: Server, versions: map<nat, VersionRow>, chunks: set<ChunkRow>, current: map<Id, nat>)

  /**
   A request as it arrives, with what the route asks elsewhere: the keys that storage
   holds a blob for, and the answer of the quota check.
   */
  datatype Request = Request(caller: User, file: Id, commit: Commit, chunks: seq<NewChunk>,
                             uploaded: set<StorageKey>, quota: Outcome)

  /** The id and number of the version row that the route inserts. */
  datatype NewVersion = NewVersion(id: nat, number: nat)

  // -------------------------------------------------------------------
  // The checks
  // -------------------------------------------------------------------

  function KeysOf(st: Store, f: Id): set<StorageKey> {
    set c | c in st.chunks && c.file == f :: c.key
  }

  /** Minted for this caller, file and sequence, and not in use. */
  predicate Bound(caller: User, f: Id, inUse: set<StorageKey>, c: NewChunk) {
    && c.key.StorageKey? && c.key.owner == caller && c.key.file == f && c.key.sequence == c.sequence
    && c.key !in inUse
  }

  /** All bound, of one rotation, and each sequence number once. */
  predicate AllBound(caller: User, f: Id, inUse: set<StorageKey>, cs: seq<NewChunk>) {
    && (forall i :: 0 <= i < |cs| ==> Bound(caller, f, inUse, cs[i]))
    && (forall i, j :: 0 <= i < j < |cs| ==> cs[i].key.tag == cs[j].key.tag && cs[i].sequence != cs[j].sequence)
  }

  predicate AllUploaded(r: Request) {
    forall i :: 0 <= i < |r.chunks| ==> r.chunks[i].key in r.uploaded
  }

  function Verdict(st: Store, r: Request): Outcome {
    if r.chunks == [] then BadRequest
    else if FileVerdict(st.server, r.caller, r.file, r.commit) != Ok
    then FileVerdict(st.server, r.caller, r.file, r.commit)
    else if !AllBound(r.caller, r.file, KeysOf(st, r.file), r.chunks) then BadRequest
    else if !AllUploaded(r) then BadRequest
    else r.quota
  }

  /** Each new key is the caller's for file and sequence number, all of one rotation, uploaded and not in use. */
  predicate MintedFor(st: Store, r: Request, tag: string) {
    && (forall i :: 0 <= i < |r.chunks| ==>
          && r.chunks[i].key == StorageKey(r.caller, r.file, tag, r.chunks[i].sequence)
          && r.chunks[i].key in r.uploaded
          && forall c :: c in st.chunks && c.file == r.file ==> c.key != r.chunks[i].key)
    && forall i, j :: 0 <= i < j < |r.chunks| ==> r.chunks[i].sequence != r.chunks[j].sequence
  }

  lemma BoundIsMinted(st: Store, r: Request)
    requires r.chunks != []
    ensures AllBound(r.caller, r.file, KeysOf(st, r.file), r.chunks) && AllUploaded(r) <==>
            exists tag :: MintedFor(st, r, tag)
  {
    if AllBound(r.caller, r.file, KeysOf(st, r.file), r.chunks) && AllUploaded(r) {
      var tag := r.chunks[0].key.tag;
      forall i | 0 <= i < |r.chunks|
        ensures r.chunks[i].key == StorageKey(r.caller, r.file, tag, r.chunks[i].sequence)
        ensures forall c :: c in st.chunks && c.file == r.file ==> c.key != r.chunks[i].key
      {
        assert Bound(r.caller, r.file, KeysOf(st, r.file), r.chunks[i]);
        assert forall c :: c in st.chunks && c.file == r.file ==> c.key in KeysOf(st, r.file);
      }
      assert MintedFor(st, r, tag);
    }
    if tag :| MintedFor(st, r, tag) {
      forall i | 0 <= i < |r.chunks|
        ensures Bound(r.caller, r.file, KeysOf(st, r.file), r.chunks[i])
      {
        assert r.chunks[i].key == StorageKey(r.caller, r.file, tag, r.chunks[i].sequence);
      }
    }
  }

  /** What the route answers: the collaborator checks first, then the chunks, then the quota. */
  lemma VerdictExactly(st: Store, r: Request)
    ensures var keys := FileVerdict(st.server, r.caller, r.file, r.commit);
            && (r.chunks == [] ==> Verdict(st, r) == BadRequest)
            && (r.chunks != [] && keys != Ok ==> Verdict(st, r) == keys)
            && (r.chunks != [] && keys == Ok ==>
                  Verdict(st, r) == if exists tag :: MintedFor(st, r, tag) then r.quota else BadRequest)
  {
    if r.chunks != [] {
      BoundIsMinted(st, r);
    }
  }

  // -------------------------------------------------------------------
  // The statements
  // -------------------------------------------------------------------

  function RowsFor(f: Id, v: NewVersion, cs: seq<NewChunk>): set<ChunkRow> {
    set i | 0 <= i < |cs| :: ChunkRow(f, Some(v.id), cs[i].sequence, cs[i].key)
  }

  function AddVersion(st: Store, r: Request, v: NewVersion): Store {
    st.(versions := st.versions[v.id := VersionRow(r.file, v.number, r.commit.sessionBox.payload)])
  }

  function AddChunks(st: Store, r: Request, v: NewVersion): Store {
    st.(chunks := st.chunks + RowsFor(r.file, v, r.chunks))
  }

  function FlipRow(st: Store, r: Request, v: NewVersion): Store {
    st.(server := Execute(st.server, Statements(r.file, r.commit)[0]), current := st.current[r.file := v.number])
  }

  /** `version_id <> x` holds of no row whose version_id is NULL. */
  predicate Outdated(c: ChunkRow, f: Id, v: NewVersion) {
    c.file == f && c.version.Some? && c.version.value != v.id
  }

  function DropChunks(st: Store, r: Request, v: NewVersion): Store {
    st.(chunks := set c | c in st.chunks && !Outdated(c, r.file, v))
  }

  function DropVersions(st: Store, r: Request, v: NewVersion): Store {
    st.(versions := map i | i in st.versions && !(st.versions[i].file == r.file && i != v.id) :: st.versions[i])
  }

  function PutNewGrants(st: Store, r: Request): Store {
    st.(server := Upsert(st.server, r.file, r.commit.remaining))
  }

  function Revoke(st: Store, r: Request): Store {
    st.(server := DropGrant(st.server, r.file, r.commit.revoked))
  }

  const STATEMENTS := 7

  /** The state after the first `n` statements. */
  function After(st: Store, r: Request, v: NewVersion, n: nat): Store
    requires n <= STATEMENTS
  {
    if n == 0 then st
    else
      var before := After(st, r, v, n - 1);
      if n == 1 then AddVersion(before, r, v)
      else if n == 2 then AddChunks(before, r, v)
      else if n == 3 then FlipRow(before, r, v)
      else if n == 4 then DropChunks(before, r, v)
      else if n == 5 then DropVersions(before, r, v)
      else if n == 6 then PutNewGrants(before, r)
      else Revoke(before, r)
  }

  /** An upsert that names a user twice is refused, after five statements have run. */
  function CommitWhole(st: Store, r: Request, v: NewVersion): (Outcome, Store) {
    if Verdict(st, r) != Ok then (Verdict(st, r), st)
    else if RepeatsUser(r.commit) then (ServerError, After(st, r, v, 5))
    else (Ok, After(st, r, v, STATEMENTS))
  }

  class FileStore {
    var server: Server
    var versions: map<nat, VersionRow>
    var chunks: set<ChunkRow>
    var current: map<Id, nat>

    function State(): Store
      reads this
    {
      Store(server, versions, chunks, current)
    }

    constructor ()
      ensures State() == Store(Server(map[], map[]), map[], {}, map[])
    {
      server, versions, chunks, current := Server(map[], map[]), map[], {}, map[];
    }

    /** The loop over the new chunks, which stops at the first offence. */
    method CheckChunks(caller: User, f: Id, cs: seq<NewChunk>) returns (ok: bool)
      ensures ok <==> AllBound(caller, f, KeysOf(State(), f), cs)
    {
      var inUse := set c | c in chunks && c.file == f :: c.key;
      assert inUse == KeysOf(State(), f);
      var seen: set<nat> := {};
      var tag: Option<string> := None;
      for i := 0 to |cs|
        invariant AllBound(caller, f, inUse, cs[..i])
        invariant forall n :: n in seen <==> exists j :: 0 <= j < i && cs[j].sequence == n
        invariant i > 0 ==> tag == Some(cs[0].key.tag)
        invariant i == 0 ==> tag == None
      {
        var c := cs[i];
        if c.key.Malformed? || c.key.owner != caller || c.key.file != f || c.key.sequence != c.sequence {
          return false;
        }
        if tag.None? {
          tag := Some(c.key.tag);
        }
        if Some(c.key.tag) != tag {
          assert cs[0].key.tag != cs[i].key.tag;
          return false;
        }
        if c.sequence in seen {
          return false;
        }
        seen := seen + {c.sequence};
        if c.key in inUse {
          return false;
        }
      }
      assert cs[..|cs|] == cs;
      return true;
    }

    method RotateCommit(r: Request, v: NewVersion) returns (outcome: Outcome)
      modifies this
      ensures (outcome, State()) == CommitWhole(old(State()), r, v)
    {
      if r.chunks == [] { return BadRequest; }
      outcome := FileVerdict(server, r.caller, r.file, r.commit);
      if outcome != Ok { return; }
      var bound := CheckChunks(r.caller, r.file, r.chunks);
      if !bound { return BadRequest; }
      for i := 0 to |r.chunks|
        invariant State() == old(State())
        invariant forall j :: 0 <= j < i ==> r.chunks[j].key in r.uploaded
      {
        if r.chunks[i].key !in r.uploaded { return BadRequest; }
      }
      if r.quota != Ok { return r.quota; }
      ghost var before := State();
      // 2. The version row.
      versions := versions[v.id := VersionRow(r.file, v.number, r.commit.sessionBox.payload)];
      assert State() == After(before, r, v, 1);
      // 3. The chunk rows.
      chunks := chunks + RowsFor(r.file, v, r.chunks);
      assert State() == After(before, r, v, 2);
      // 4. The file's own row.
      server := server.(files := server.files[r.file := server.files[r.file].(
        pub := r.commit.pub, sessionBox := r.commit.sessionBox, metaKey := r.commit.metaKey, claim := r.commit.claim)]);
      current := current[r.file := v.number];
      assert State() == After(before, r, v, 3);
      // 5. The old chunk and version rows.
      chunks := set c | c in chunks && !(c.file == r.file && c.version.Some? && c.version.value != v.id);
      assert State() == After(before, r, v, 4);
      versions := map i | i in versions && !(versions[i].file == r.file && i != v.id) :: versions[i];
      assert State() == After(before, r, v, 5);
      // 6. The remaining collaborators, in one upsert.
      if exists i, j :: 0 <= i < j < |r.commit.remaining| && r.commit.remaining[i].user == r.commit.remaining[j].user {
        return ServerError;
      }
      server := Upsert(server, r.file, r.commit.remaining);
      assert State() == After(before, r, v, 6);
      // 7. The revoked user, last.
      server := server.(grants := server.grants - {(r.file, r.commit.revoked)});
      return Ok;
    }
  }

  // -------------------------------------------------------------------
  // The whole effect
  // -------------------------------------------------------------------

  lemma ServerAfter(st: Store, r: Request, v: NewVersion, n: nat)
    requires n <= STATEMENTS && r.file in st.server.files
    ensures n <= 2 ==> After(st, r, v, n).server == st.server
    ensures 3 <= n <= 5 ==> After(st, r, v, n).server == Execute(st.server, Statements(r.file, r.commit)[0])
    ensures n == 6 ==> After(st, r, v, n).server ==
                       Upsert(Execute(st.server, Statements(r.file, r.commit)[0]), r.file, r.commit.remaining)
    ensures n == 7 ==> After(st, r, v, n).server ==
                       DropGrant(Upsert(Execute(st.server, Statements(r.file, r.commit)[0]), r.file,
                                        r.commit.remaining),
                                 r.file, r.commit.revoked)
  {
    var s1 := AddVersion(st, r, v);
    var s2 := AddChunks(s1, r, v);
    var s3 := FlipRow(s2, r, v);
    var s4 := DropChunks(s3, r, v);
    var s5 := DropVersions(s4, r, v);
    assert After(st, r, v, 1) == s1;
    assert After(st, r, v, 2) == s2;
    assert After(st, r, v, 3) == s3;
    assert After(st, r, v, 4) == s4;
    assert After(st, r, v, 5) == s5;
    assert After(st, r, v, 6) == PutNewGrants(s5, r);
    assert After(st, r, v, 7) == Revoke(PutNewGrants(s5, r), r);
  }

  /** The chunk rows that a commit on `f` leaves behind: those of other files, and those without a version. */
  function Untouched(st: Store, f: Id): set<ChunkRow> {
    set c | c in st.chunks && (c.file != f || c.version.None?)
  }

  lemma ChunksAfter(st: Store, r: Request, v: NewVersion, n: nat)
    requires n <= STATEMENTS && VersionIsNew(st, v)
    ensures n <= 1 ==> After(st, r, v, n).chunks == st.chunks
    ensures 2 <= n ==> RowsFor(r.file, v, r.chunks) <= After(st, r, v, n).chunks
    ensures n == STATEMENTS ==>
              After(st, r, v, n).chunks == Untouched(st, r.file) + RowsFor(r.file, v, r.chunks)
  {
    var news := RowsFor(r.file, v, r.chunks);
    assert forall c :: c in news ==> c.file == r.file && c.version == Some(v.id);
    var s1 := AddVersion(st, r, v);
    var s2 := AddChunks(s1, r, v);
    var s3 := FlipRow(s2, r, v);
    var s4 := DropChunks(s3, r, v);
    assert After(st, r, v, 1) == s1;
    assert After(st, r, v, 2) == s2;
    assert After(st, r, v, 3) == s3;
    assert After(st, r, v, 4) == s4;
    assert After(st, r, v, 5) == DropVersions(s4, r, v);
    assert After(st, r, v, 6) == PutNewGrants(DropVersions(s4, r, v), r);
    assert After(st, r, v, 7) == Revoke(PutNewGrants(DropVersions(s4, r, v), r), r);
    assert s4.chunks == Untouched(st, r.file) + news;
  }

  /** The new version's id is new, and chunk rows that name a version name an existing one. */
  predicate VersionIsNew(st: Store, v: NewVersion) {
    && v.id !in st.versions
    && forall c :: c in st.chunks && c.version.Some? ==> c.version.value in st.versions
  }

  /** Besides, a file's request rewraps nothing. */
  predicate InOrder(st: Store, r: Request, v: NewVersion) {
    VersionIsNew(st, v) && r.commit.rewraps == []
  }

  function NewKeys(r: Request): set<StorageKey> {
    set i | 0 <= i < |r.chunks| :: r.chunks[i].key
  }

  /** The file's own chunk rows without a version. */
  function Unversioned(st: Store, f: Id): set<ChunkRow> {
    set c | c in st.chunks && c.file == f && c.version.None?
  }

  /**
   An accepted request replaces the keys as the key model says, and the file's chunk rows
   by the new ones; the chunk rows of other files are untouched, and so are those of the
   file that have no version. So it leaves exactly the new chunks if there are none such.
   */
  lemma WholeEffect(st: Store, r: Request, v: NewVersion)
    requires InOrder(st, r, v) && Verdict(st, r) == Ok && !RepeatsUser(r.commit)
    ensures var (outcome, st') := CommitWhole(st, r, v);
            && outcome == Ok
            && st'.server == CommitFile(st.server, r.caller, r.file, r.commit).1
            && st'.chunks == Untouched(st, r.file) + RowsFor(r.file, v, r.chunks)
            && KeysOf(st', r.file) == (set c | c in Unversioned(st, r.file) :: c.key) + NewKeys(r)
            && (KeysOf(st', r.file) == NewKeys(r) <==> Unversioned(st, r.file) == {})
  {
    ServerAfter(st, r, v, STATEMENTS);
    ChunksAfter(st, r, v, STATEMENTS);
    assert r.commit.(rewraps := []) == r.commit;
    StatementsInOrder(st.server, r.file, r.commit);
    assert ExecuteAll(Upsert(Execute(st.server, Statements(r.file, r.commit)[0]), r.file, r.commit.remaining), [])
        == Upsert(Execute(st.server, Statements(r.file, r.commit)[0]), r.file, r.commit.remaining);
    KeysAfter(st, r, v, CommitWhole(st, r, v).1);
  }

  lemma KeysAfter(st: Store, r: Request, v: NewVersion, st': Store)
    requires AllBound(r.caller, r.file, KeysOf(st, r.file), r.chunks)
    requires st'.chunks == Untouched(st, r.file) + RowsFor(r.file, v, r.chunks)
    ensures KeysOf(st', r.file) == (set c | c in Unversioned(st, r.file) :: c.key) + NewKeys(r)
    ensures KeysOf(st', r.file) == NewKeys(r) <==> Unversioned(st, r.file) == {}
  {
    forall i | 0 <= i < |r.chunks|
      ensures r.chunks[i].key in KeysOf(st', r.file)
    {
      assert ChunkRow(r.file, Some(v.id), r.chunks[i].sequence, r.chunks[i].key) in RowsFor(r.file, v, r.chunks);
    }
    forall c | c in Unversioned(st, r.file)
      ensures c.key in KeysOf(st', r.file) && c.key !in NewKeys(r)
    {
      assert c in st'.chunks && c.key in KeysOf(st, r.file);
      assert forall i :: 0 <= i < |r.chunks| ==> Bound(r.caller, r.file, KeysOf(st, r.file), r.chunks[i]);
    }
  }

  // -------------------------------------------------------------------
  // Versions, and what a download returns
  // -------------------------------------------------------------------

  lemma VersionsAfter(st: Store, r: Request, v: NewVersion, n: nat, i: nat)
    requires n <= STATEMENTS && v.id !in st.versions
    ensures var mid := After(st, r, v, n);
            && mid.current == (if n <= 2 then st.current else st.current[r.file := v.number])
            && (i in mid.versions <==>
                  if i == v.id then n >= 1 else i in st.versions && (n <= 4 || st.versions[i].file != r.file))
            && (i in mid.versions ==>
                  mid.versions[i] ==
                  if i == v.id then VersionRow(r.file, v.number, r.commit.sessionBox.payload) else st.versions[i])
  {
    var s1 := AddVersion(st, r, v);
    var s2 := AddChunks(s1, r, v);
    var s3 := FlipRow(s2, r, v);
    var s4 := DropChunks(s3, r, v);
    var s5 := DropVersions(s4, r, v);
    assert After(st, r, v, 1) == s1;
    assert After(st, r, v, 2) == s2;
    assert After(st, r, v, 3) == s3;
    assert After(st, r, v, 4) == s4;
    assert After(st, r, v, 5) == s5;
    assert After(st, r, v, 6) == PutNewGrants(s5, r);
    assert After(st, r, v, 7) == Revoke(PutNewGrants(s5, r), r);
  }

  /**
   An accepted request points the file at the new version, which carries the new session
   key and is the only one left of the file, and touches no other file's.
   */
  lemma WholeVersions(st: Store, r: Request, v: NewVersion, i: nat, g: Id)
    requires InOrder(st, r, v) && Verdict(st, r) == Ok && !RepeatsUser(r.commit)
    ensures var st' := CommitWhole(st, r, v).1;
            && r.file in st'.current && st'.current[r.file] == v.number
            && (g != r.file ==> (g in st'.current <==> g in st.current)
                                && (g in st.current ==> st'.current[g] == st.current[g]))
            && v.id in st'.versions
            && st'.versions[v.id] == VersionRow(r.file, v.number, r.commit.sessionBox.payload)
            && (i in st'.versions && st'.versions[i].file == r.file ==> i == v.id)
            && (i in st.versions && st.versions[i].file != r.file ==>
                  i in st'.versions && st'.versions[i] == st.versions[i])
            && (i in st'.versions ==> i == v.id || (i in st.versions && st'.versions[i] == st.versions[i]))
  {
    VersionsAfter(st, r, v, STATEMENTS, i);
    VersionsAfter(st, r, v, STATEMENTS, v.id);
  }

  /** The version rows with the file's current number. */
  function CurrentIds(st: Store, f: Id): set<nat> {
    set i | i in st.versions && st.versions[i].file == f && f in st.current && st.versions[i].number == st.current[f]
  }

  /** chunk-download: the current version's chunks, or all of the file's if it has no such version row. */
  function Downloaded(st: Store, f: Id): set<ChunkRow> {
    if CurrentIds(st, f) == {} then set c | c in st.chunks && c.file == f
    else set c | c in st.chunks && c.file == f && c.version.Some? && c.version.value in CurrentIds(st, f)
  }

  /** The route takes one more than the largest number of the file's versions, or 1. */
  predicate IsNext(st: Store, f: Id, v: NewVersion) {
    && (forall i :: i in st.versions && st.versions[i].file == f ==> st.versions[i].number < v.number)
    && (v.number == 1 ||
        exists i :: i in st.versions && st.versions[i].file == f && st.versions[i].number + 1 == v.number)
  }

  /** The file points past its versions, as one without any does that points to number 1. */
  predicate PointsAhead(st: Store, f: Id, v: NewVersion) {
    f in st.current && st.current[f] == v.number
  }

  lemma CurrentIdsAfter(st: Store, r: Request, v: NewVersion, n: nat)
    requires n <= STATEMENTS && VersionIsNew(st, v) && IsNext(st, r.file, v)
    ensures PointsAhead(st, r.file, v) ==> CurrentIds(st, r.file) == {}
    ensures CurrentIds(After(st, r, v, n), r.file) ==
            if n >= 3 || (n >= 1 && PointsAhead(st, r.file, v)) then {v.id} else CurrentIds(st, r.file)
  {
    forall i: nat
      ensures i in CurrentIds(After(st, r, v, n), r.file) <==>
              if n >= 3 || (n >= 1 && PointsAhead(st, r.file, v)) then i == v.id else i in CurrentIds(st, r.file)
    {
      VersionsAfter(st, r, v, n, i);
    }
  }

  lemma FileChunksAfter(st: Store, r: Request, v: NewVersion, n: nat)
    requires n <= STATEMENTS && VersionIsNew(st, v)
    ensures var own := set c | c in st.chunks && c.file == r.file;
            (set c | c in After(st, r, v, n).chunks && c.file == r.file) ==
            (if n <= 3 then own else Unversioned(st, r.file)) + if n <= 1 then {} else RowsFor(r.file, v, r.chunks)
  {
    var s1 := AddVersion(st, r, v);
    var s2 := AddChunks(s1, r, v);
    var s3 := FlipRow(s2, r, v);
    var s4 := DropChunks(s3, r, v);
    assert forall c :: c in RowsFor(r.file, v, r.chunks) ==> c.file == r.file && c.version == Some(v.id);
    assert forall c :: c in st.chunks && c.version.Some? ==> c.version.value != v.id;
    assert After(st, r, v, 1) == s1;
    assert After(st, r, v, 2) == s2;
    assert After(st, r, v, 3) == s3;
    assert After(st, r, v, 4) == s4;
    assert After(st, r, v, 5) == DropVersions(s4, r, v);
    assert After(st, r, v, 6) == PutNewGrants(DropVersions(s4, r, v), r);
    assert After(st, r, v, 7) == Revoke(PutNewGrants(DropVersions(s4, r, v), r), r);
  }

  /**
   What a download returns while the statements run: the old chunks until the file's row
   is written, exactly the new ones from then on. Only for a file without a current
   version row there are exceptions. If it points to the number that the new version
   gets, it has no chunks at all after the first statement and the new ones after the
   second; otherwise it has both after the second.
   */
  lemma DownloadDuringCommit(st: Store, r: Request, v: NewVersion, n: nat)
    requires InOrder(st, r, v) && IsNext(st, r.file, v) && n <= STATEMENTS
    ensures Downloaded(After(st, r, v, n), r.file) ==
            if n >= 3 then RowsFor(r.file, v, r.chunks)
            else if n == 0 || CurrentIds(st, r.file) != {} then Downloaded(st, r.file)
            else if PointsAhead(st, r.file, v) then if n == 1 then {} else RowsFor(r.file, v, r.chunks)
            else Downloaded(st, r.file) + if n == 1 then {} else RowsFor(r.file, v, r.chunks)
  {
    CurrentIdsAfter(st, r, v, n);
    FileChunksAfter(st, r, v, n);
    var mid, news := After(st, r, v, n), RowsFor(r.file, v, r.chunks);
    assert forall c :: c in news ==> c.version == Some(v.id);
    assert v.id !in CurrentIds(st, r.file);
    forall c: ChunkRow | c.file == r.file
      ensures c in Downloaded(mid, r.file) <==>
              if n >= 3 then c in news
              else if n == 0 || CurrentIds(st, r.file) != {} then c in Downloaded(st, r.file)
              else if PointsAhead(st, r.file, v) then n == 2 && c in news
              else c in Downloaded(st, r.file) || (n == 2 && c in news)
    {
      assert c in mid.chunks <==> c in set d | d in mid.chunks && d.file == r.file;
    }
    assert forall c :: c in Downloaded(mid, r.file) || c in Downloaded(st, r.file) || c in news ==> c.file == r.file;
  }

  /**
   A refused request changes nothing. One that lists a user twice passes the checks and
   fails at the grants, after the file's keys, version and chunks were replaced: it is
   left with the old grants, which do not open it.
   */
  lemma FailuresExactly(st: Store, r: Request, v: NewVersion)
    ensures Verdict(st, r) != Ok ==> CommitWhole(st, r, v) == (Verdict(st, r), st)
    ensures Verdict(st, r) == Ok && RepeatsUser(r.commit) && InOrder(st, r, v) && IsNext(st, r.file, v) ==>
              var (outcome, st') := CommitWhole(st, r, v);
              && outcome == ServerError
              && st'.server.grants == st.server.grants
              && r.file in st'.server.files && st'.server.files[r.file].pub == r.commit.pub
              && (forall g :: g in st.server.files && g != r.file ==>
                    g in st'.server.files && st'.server.files[g] == st.server.files[g])
              && st'.current == st.current[r.file := v.number]
              && Downloaded(st', r.file) == RowsFor(r.file, v, r.chunks)
              && (forall i :: i in st'.versions && st'.versions[i].file == r.file ==> i == v.id)
  {
    if Verdict(st, r) == Ok && RepeatsUser(r.commit) && InOrder(st, r, v) && IsNext(st, r.file, v) {
      ServerAfter(st, r, v, 5);
      DownloadDuringCommit(st, r, v, 5);
      forall i: nat
        ensures i in After(st, r, v, 5).versions && After(st, r, v, 5).versions[i].file == r.file ==> i == v.id
      {
        VersionsAfter(st, r, v, 5, i);
      }
      VersionsAfter(st, r, v, 5, v.id);
    }
  }

  // -------------------------------------------------------------------
  // Crash and retry
  // -------------------------------------------------------------------

  /** Until the revoked user's grant goes, the collaborator checks still pass. */
  lemma AclStillPasses(st: Server, caller: User, f: Id, p: Commit)
    requires FileVerdict(st, caller, f, p) == Ok
    ensures FileVerdict(Execute(st, Statements(f, p)[0]), caller, f, p) == Ok
    ensures FileVerdict(Upsert(Execute(st, Statements(f, p)[0]), f, p.remaining), caller, f, p) == Ok
  {
    var flipped := Execute(st, Statements(f, p)[0]);
    assert UsersOn(flipped, f) == UsersOn(st, f);
    var put := Upsert(flipped, f, p.remaining);
    forall u
      ensures u in UsersOn(put, f) <==> u in UsersOn(st, f)
    {
      UpsertEffect(flipped, f, p.remaining, (f, u));
      GrantOfMember(p.remaining, u);
      OnIsGranted(st, f, u);
      OnIsGranted(put, f, u);
      assert GrantOf(p.remaining, u).Some? ==> u in RemainingUsers(p);
    }
    UpsertEffect(flipped, f, p.remaining, (f, caller));
    assert UsersOn(put, f) == UsersOn(st, f);
  }

  lemma AclFailsAtTheEnd(st: Server, caller: User, f: Id, p: Commit)
    requires FileVerdict(st, caller, f, p) == Ok
    ensures var put := Upsert(Execute(st, Statements(f, p)[0]), f, p.remaining);
            FileVerdict(DropGrant(put, f, p.revoked), caller, f, p) == Conflict
  {
    var put := Upsert(Execute(st, Statements(f, p)[0]), f, p.remaining);
    UpsertEffect(Execute(st, Statements(f, p)[0]), f, p.remaining, (f, caller));
    OnIsGranted(DropGrant(put, f, p.revoked), f, p.revoked);
  }

  /**
   The same request sent again after a stop is accepted only while no chunk row has been
   written. From then on its own chunks count as the current version's and it is refused
   as bad, until at the very end the collaborator set has changed and it is a conflict.
   */
  lemma RetryExactly(st: Store, r: Request, v: NewVersion, done: nat)
    requires InOrder(st, r, v) && Verdict(st, r) == Ok && done <= STATEMENTS
    ensures Verdict(After(st, r, v, done), r) ==
            if done <= 1 then Ok else if done < STATEMENTS then BadRequest else Conflict
  {
    ServerAfter(st, r, v, done);
    ChunksAfter(st, r, v, done);
    AclStillPasses(st.server, r.caller, r.file, r.commit);
    if done == STATEMENTS {
      AclFailsAtTheEnd(st.server, r.caller, r.file, r.commit);
    } else if done >= 2 {
      var row := ChunkRow(r.file, Some(v.id), r.chunks[0].sequence, r.chunks[0].key);
      assert row in RowsFor(r.file, v, r.chunks);
      assert row.key in KeysOf(After(st, r, v, done), r.file);
      assert !Bound(r.caller, r.file, KeysOf(After(st, r, v, done), r.file), r.chunks[0]);
    }
  }

  /** While it is accepted, the retry ends with the keys and the chunks of the uninterrupted request. */
  lemma EarlyRetryConverges(st: Store, r: Request, v: NewVersion, again: NewVersion, done: nat)
    requires InOrder(st, r, v) && Verdict(st, r) == Ok && !RepeatsUser(r.commit) && done <= 1
    requires again.id !in st.versions && again.id != v.id
    ensures var retried := CommitWhole(After(st, r, v, done), r, again);
            && retried.0 == Ok
            && retried.1.server == CommitWhole(st, r, v).1.server
            && KeysOf(retried.1, r.file) == KeysOf(CommitWhole(st, r, v).1, r.file)
  {
    var mid := After(st, r, v, done);
    assert After(st, r, v, 0) == st && After(st, r, v, 1) == AddVersion(After(st, r, v, 0), r, v);
    RetryExactly(st, r, v, done);
    WholeEffect(st, r, v);
    WholeEffect(mid, r, again);
  }

  /**
   What opens by a grant after a stop: the old file until its row is written, nothing at
   all until the new grants are, and then the new file for the users who remain. A stop
   in the middle part leaves a file that nobody opens and whose request is refused.
   */
  lemma OpensAfterStop(st: Store, r: Request, v: NewVersion, view: View, session: Session, done: nat, u: User)
    requires Sound(st.server) && InOrder(st, r, v) && Verdict(st, r) == Ok && done <= STATEMENTS
    requires Fresh(st.server, r.commit.pub) && view.children == []
    requires r.commit == Build(r.caller, view, r.commit.pub, session, r.commit.revoked)
    ensures var mid := After(st, r, v, done).server;
            && r.file in mid.files
            && OpenNode(mid, u, r.file, None) ==
               if done <= 2 then OpenNode(st.server, u, r.file, None)
               else if done <= 5 || (r.file, u) !in st.server.grants || u == r.commit.revoked then None
               else Some(Keys(session, r.commit.pub))
  {
    ServerAfter(st, r, v, done);
    if 3 <= done <= 5 {
      NobodyOpensAfterTheFirstStatement(st.server, r.file, r.commit, u);
    } else if done >= 6 {
      PutOpensForRemaining(st.server, r.caller, r.file, view, r.commit.pub, session, r.commit.revoked, u);
    }
  }

  lemma PutOpensForRemaining(st: Server, caller: User, f: Id, view: View, pub: Key, session: Session,
                             revoked: User, u: User)
    requires Sound(st) && Fresh(st, pub) && Owns(st, f, caller) && view.children == []
    requires AclVerdict(st, caller, f, Build(caller, view, pub, session, revoked)) == Ok
    ensures var p := Build(caller, view, pub, session, revoked);
            var put := Upsert(Execute(st, Statements(f, p)[0]), f, p.remaining);
            && f in put.files
            && OpenNode(put, u, f, None) ==
               (if (f, u) in st.grants && u != revoked then Some(Keys(session, pub)) else None)
            && OpenNode(DropGrant(put, f, revoked), u, f, None) == OpenNode(put, u, f, None)
  {
    var p := Build(caller, view, pub, session, revoked);
    StateMidway(st, f, p, 0);
    assert p.rewraps[..0] == [];
    UpsertEffect(Execute(st, Statements(f, p)[0]), f, p.remaining, (f, u));
    RemainingUsersOpenTheFolder(st, caller, f, view, pub, session, revoked, 0, u);
    OpensAfterDrop(Upsert(Execute(st, Statements(f, p)[0]), f, p.remaining), u, f, revoked);
  }

  lemma OpensAfterDrop(put: Server, u: User, f: Id, revoked: User)
    requires f in put.files && (u == revoked ==> OpenNode(put, u, f, None) == None)
    ensures OpenNode(DropGrant(put, f, revoked), u, f, None) == OpenNode(put, u, f, None)
  {
  }
}
