# SecureWarp, modelled and proved in Dafny

SecureWarp keeps an end-to-end encrypted drive: the server stores a forest of rows whose names and
contents it cannot read, and clients find their way through it with wrapped keys. This project models
the parts of it where state, branching and interleaving meet, and proves what they keep.
`dafny verify dfyconfig.toml` checks everything.

| file | what it is about |
|---|---|
| `Forest.dfy` | the `parent_id` forest: reachability, subtrees, acyclicity, evaluation of a recursive `UNION ALL` query, the depth-capped ancestor walk |
| `Trash.dfy`, `FileTable.dfy` | soft delete, restore, the trash listing and storage keys, as functions on tables and as methods that update a table in place |
| `KeyTree.dfy` | rows, grants (`file_keys`) and parent claims with symbolic wraps; what a sound database is |
| `KeyWalk.dfy` | opening files down a path (move dialog) and up the parent chain (download) |
| `KeyCommits.dfy` | create, share, unshare, leave, change level, finalize, new versions, move |
| `KeyRotation.dfy`, `KeyServer.dfy` | file rotation and shallow folder rotation: what the client builds, what the server checks, the statements it runs one after another |
| `KeyFileRoute.dfy` | the file rotation route as a whole, with its version and chunk rows |
| `KeyAccess.dfy` | who can read what: in a sound database from any learned secrets, and after a rotation by the application's own walk |
| `KeyCutOff.dfy` | what follows after a rotation from any learned secrets and all stored wraps |
| `KeyRuns.dfy`, `KeyExamples.dfy` | whole runs of all these requests, and concrete ones that go wrong |
| `KeyPermissions.dfy` | who may do what, what each request writes, and who can read a file afterwards |
| `KeyLevels.dfy` | permissions after a rotation; over whole runs, who owns and who comes to read a file |
| `RateLimit.dfy` | the fixed-window limiter with reset and prune |
| `DownloadWorker.dfy` | page, service worker and browser during streamed downloads |
| `Preview.dfy`, `Search.dfy` | the generation counter of the preview and the sequence counter of the search |
| `FileOrder.dfy` | the comparator of the file list and stable sorting |
| `MockCipher.dfy` | the pseudo-ciphertext generator |
| `Middleware.dfy` | host, path and session redirects |

Code that updates fields step by step is a class whose methods are proved equal to a function on its
state; the theorems are about those functions, over all inputs and all runs.

A keypair is one symbolic key. `Unseal` opens a wrap only with the recipient's private key and the
right sender, so what a user can read becomes reachability over grants and claims. A database is
`Sound` when its parent links form a forest, its keys are distinct, every row opens with its own key
and has its owner's grant, every claim opens with the parent's current key and yields the row's current
keys, and every grant yields the file's current private key. Each write request carries what its client
had seen. The server cannot look into wraps, so for each request the exact condition under which the
database stays sound is a condition on how current that view was.

## Where the code does less than it says

* A folder rotation commit can leave a stale claim although its checks pass: when an upload into the
  folder is still in flight, or when a child was rotated or got a new version or the folder's parent changed
  after the context was read (`KeyRotation.FolderCommitStaysSound` gives the exact condition,
  `KeyExamples.UploadInFlightGoesStale`, `KeyExamples.ChildRotationIsOvertaken` and
  `KeyExamples.VersionIsOvertaken` give inputs).
* A version row keeps the claim it was made with. One that becomes current after its file was moved or the
  parent rotated, by finishing its upload or by restoring it, puts that old claim back; and one without a claim
  leaves a claim with the wrong session key (`KeyCommits.VersionStaysSound`, `KeyExamples.VersionComesTooLate`).
* The checks of a folder commit hold for the moment they run. A share that lands between them and the last
  statement leaves a grant that does not open (`KeyServer.ShareInTheMiddleGoesStale`).
* A grant on a folder is meant to open everything below it, but a download is refused when a folder in between
  is in the trash. That happens to live files of others below a folder its owner trashed
  (`KeyWalk.ResolveUpExact`, `KeyExamples.TrashedFolderCutsTheWalkUp`).
* Files the revoked user never opened are not always protected: an upload in flight keeps a claim under
  the old folder key (`KeyExamples.UploadInFlightStaysInReach`). And a client that takes the parent's public
  key from its session-long cache can hand the new folder key to whoever learned the old parent key
  (`KeyExamples.CachedParentKeyGivesAway`). `KeyCutOff.DerivableAfterCommit` says exactly what follows after
  any accepted commit.
* The file rotation route promises that the identical payload can be sent again after a failure anywhere.
  That is so only until its chunk rows are written (`KeyFileRoute.RetryExactly`), and a stop between the
  row and the grants leaves a file that no grant opens (`KeyFileRoute.OpensAfterStop`). The deletion of the old
  chunk rows misses those whose version is NULL (`KeyFileRoute.WholeEffect`, `KeyExamples.UnversionedChunkStays`).
* The folder commit writes the levels its client read with the context. A level that the owner changes in
  between is changed back (`KeyLevels.LevelsAreThoseOfTheContext`, `KeyLevels.LevelSetMeanwhileIsUndone`).
* While a file rotation runs, a file without a current version row is not downloaded as one version: it has no
  chunks for a while, or old and new ones at once (`KeyFileRoute.DownloadDuringCommit`).
* The folder commit is commented as leaving the folder open to someone at all times; after its first
  statement nobody's grant opens it (`KeyServer.NobodyOpensAfterTheFirstStatement`).
* The create routes do not always check that a parent is a folder, and files are moved without a cycle
  check, so two accepted requests can close a loop (`KeyExamples.TwoRequestsCloseALoop`,
  `Trash.FileWithFolderInsideCanLoop`).
* An unfinished upload that its owner trashes is never listed in the trash (`Trash.UnfinishedUploadIsNeverListed`);
  `Trash.RestoringTheListing` says exactly when the listing empties the trash.
* Restoring a row whose own parent is trashed, or creating inside a trashed folder, puts a live row below
  trash (`Trash.StepKeepsDownClosed`).
* The comparator on modification dates is not transitive once an unparsable date meets two different ones
  (`FileOrder.ConsistentExactly`, `FileOrder.UnparsableDateBreaksTheOrder`). Such a date can only come from the
  server: `src/hooks/use-files.ts` takes `updated_at` from its answers unchecked (lines 626 and 871), while the
  rows it makes itself carry the current time.
* Search results are said to be those of the current workspace; they are those of the workspace in which
  the query was typed (`Search.LandingShowsTheActiveWorkspaceExactly`, `Search.OldWorkspaceCanShow`).
* A preview that was overtaken drops its result without revoking its blob URL
  (`Preview.OvertakenResultIsDropped`).
* With a token and no usable session secret `/login` redirects to itself (`Middleware.ChainsStopExactly`);
  a path that begins with two slashes can take any number of redirects
  (`Middleware.NestedHostsTakeMoreHops`).

## Model

| member | source | states |
|---|---|---|
| `Forest.EvaluateRecursive` | README.md:331-336 | evaluating `WITH RECURSIVE ... UNION ALL` working table by working table ends whenever the anchor is on no loop, and returns every row joined to it exactly once |
| `Forest.CycleNeverEnds` | README.md:724-730 | the condition is exact: with a loop through the anchor no working table is ever empty |
| `Forest.IsDescendantOfExact` | src/lib/db/files.ts:1796-1830 | the cycle check says yes exactly for descendants at most 64 levels down and gives up exactly on other rows with 64 ancestors, so a no is always right |
| `Forest.MoveKeepsAcyclic` | src/app/api/files/[id]/move/route.ts:154-165 | hanging a row anywhere outside its own subtree keeps the forest a forest |
| `Forest.MoveBelowItselfLoops` | src/app/api/files/[id]/move/route.ts:154-165 | hanging it inside its own subtree always closes a loop |
| `FileTable.Files.SoftDeleteSubtree` | README.md:328-338 | the update stamps exactly the live rows of the owner joined to the root by such rows, and nothing else changes |
| `FileTable.Files.RestoreSubtree` | README.md:340-353 | the update clears exactly the owner's rows joined to the root by rows with the root's stamp; a foreign or live root changes nothing |
| `FileTable.Files.SubtreeStorageKeys` | README.md:721-735 | a chunk is returned as often as it is stored if a chain of rows of the owner joins its file to the root, and not at all otherwise |
| `Trash.SoftDeleteByChain` | README.md:328-338 | a soft delete stamps a row if and only if a chain of live rows of the owner joins it to the root, and changes nothing else |
| `Trash.RestoreByChain` | README.md:340-353 | a restore clears a row if and only if a chain of the owner's rows with the root's stamp joins it to the root |
| `Trash.RestoreUndoesSoftDelete` | README.md:328-353 | delete then restore gives back the table exactly when no row below the batch already carries the stamp |
| `Trash.TrashThenRestoreInAnyOrder` | README.md:328-353 | any number of deletes of live roots with new stamps, restored in any order and with repetitions, gives back the original table |
| `Trash.RestoreClearsItsOwnBatch` | README.md:340-352 | after such deletes each single restore clears the rows of its own delete and no others, nested deletes included |
| `Trash.SoftDeleteKeepsDownClosed` | README.md:328-338 | soft delete never leaves a live row below its owner's trash |
| `Trash.RestoreKeepsDownClosed` | README.md:340-353 | restore keeps that exactly when the restored row's own parent is not in the owner's trash |
| `Trash.StepKeepsDownClosed` | src/app/api/files/restore/route.ts:40-67 | among create, finalize, making a workspace root, move, delete and restore exactly two cases break it: restoring, and creating, under a trashed parent of the same owner |
| `Trash.StepKeepsInvariant` | README.md:328-353 | one step keeps the forest, children only under folders and every batch in one piece, exactly unless it is an accepted create of a row below a file |
| `Trash.RunKeepsInvariant` | README.md:332-352 | the same over whole runs: each batch has one top row and all its other rows have their parent in the batch |
| `Trash.StepWritesExactly` | src/app/api/files/delete/route.ts:84-105 | what each request changes of an existing row: completion, place, workspace and mark only at the requests made for it, and a workspace's root is never deleted |
| `Trash.HangsUnderFileExactly` | src/app/api/files/folder/route.ts:52-74 | a row comes to hang below a file by any upload, and by a new folder whose maker has no grant on the file or while that is unfinished or trashed |
| `Trash.FileWithFolderInsideCanLoop` | src/app/api/files/folder/route.ts:52-74 | the owner of an unfinished upload creates a folder below it and moves it in; both pass the checks and close a loop |
| `Trash.RestoringTheTopRestoresTheBatch` | README.md:340-352 | restoring the top row of a batch brings back all of it |
| `Trash.RestoringTheListing` | src/lib/db/files.ts:907-980 | restoring every listed row, in any order, brings back exactly the owner's rows that have a listed row of their batch at or above them, and empties the trash if and only if no batch has a top that is unfinished, in a workspace or the root of one |
| `Trash.ListedExactly` | src/lib/db/files.ts:957-977 | listed are the owner's finished trashed rows outside workspaces, except behind another such row with the same stamp |
| `Trash.HiddenBehindListed` | src/lib/db/files.ts:967-977 | of what is restored with a listed row exactly those are listed too that are finished and outside workspaces while the row they hang from is not |
| `Trash.OneEntryPerBatch` | src/lib/db/files.ts:898-902 | a batch of finished rows outside workspaces has exactly one entry |
| `Trash.UnfinishedUploadIsNeverListed` | src/lib/db/files.ts:911-914 | an unfinished upload trashed by its owner is in the trash and not in the listing |
| `Trash.SeparateSubtreesShareNothing` | README.md:721-735 | subtrees of rows neither of which is below the other share no row and no storage key |
| `KeyWalk.BranchesAgree` | src/components/move-modal.tsx:144-180 | in a sound database the direct row and the parent claim yield the same session key and private key |
| `KeyWalk.WalkEndsInTrueKeys` | src/components/move-modal.tsx:144-193 | a walk down a path succeeds exactly when it gets past its first row, and ends in the true keys of its last |
| `KeyWalk.ReadsExactlyWhatIsCovered` | README.md:1087-1102 | what a user can open is exactly what lies at or below one of their grants, always as the true keys |
| `KeyWalk.FetchFolders` | src/components/move-modal.tsx:134-199 | the listing holds, in the order received, exactly the readable folders other than the one being moved, each with the private key of its public key |
| `KeyWalk.ResolveUpExact` | src/lib/db/files.ts:1238-1358 | a file whose grant came with the listing opens; for any other the server answers, and the client then finds the true private key, exactly if the file is finished and not in the trash and a grant is at most 64 levels up with no trashed row below it |
| `KeyExamples.TrashedFolderCutsTheWalkUp` | src/lib/db/files.ts:1340-1346 | a live file below someone else's trashed folder in a shared folder: a walk down from the grant opens it, the download is refused |
| `KeyCommits.CreateStaysSound` | src/app/api/files/folder/route.ts:48-93 | an accepted create keeps the database sound exactly when the parent is a folder whose public key the client has; the folder check is skipped for a parent that is trashed, unfinished or only inherited |
| `KeyCommits.ShareStaysSound` | src/app/api/files/share/route.ts:64-137 | a share keeps it sound exactly when it writes nothing or wraps the file's current key |
| `KeyCommits.BookkeepingStaysSound` | src/app/api/files/unshare/route.ts:32-57 | unshare, leave, level change and finalize always keep it sound, whoever calls them, and no owner loses the own grant |
| `KeyCommits.FlaggedStaysSound` | README.md:328-353 | soft delete and restore, on whatever rows, keep it sound |
| `KeyCommits.VersionStaysSound` | src/app/api/files/chunk-upload/route.ts:525-617 | a version that becomes current keeps it sound exactly when it is sealed to the file's current key and, in a folder, either carries a claim under the folder's current key or none and the session key the file has anyway |
| `KeyCommits.MoveStaysSound` | src/app/api/files/[id]/move/route.ts:71-200 | an accepted move never closes a loop, and keeps the keys in order exactly when the keys it carries are current |
| `KeyPermissions.EffectiveLevelExact` | src/lib/db/files.ts:1384-1407 | a permission is the level of the nearest grant at most 64 levels up, and writing takes owner or editor there |
| `KeyPermissions.ShareExactly` | src/app/api/files/share/route.ts:71-137 | a share writes one grant, sealed for its recipient and with the level asked for, kept or editor, if and only if the caller may write the visible file, the recipient is neither caller nor owner, and a grant that is there is changed by an owner's level only |
| `KeyPermissions.ShareOutcomes` | src/app/api/files/share/route.ts:71-101 | what a share is answered; to those who may not write, the file is not there |
| `KeyPermissions.ShareReaders` | src/app/api/files/share/route.ts:103-137 | a share of the current key adds the recipient as a reader of the row and all below it, which the caller could read, and no other reader of anything |
| `KeyPermissions.UnshareExactly` | src/app/api/files/unshare/route.ts:32-53 | one grant goes if and only if the owner removes someone else or someone else removes themselves; all others stay |
| `KeyPermissions.UnshareReaders` | src/app/api/files/unshare/route.ts:32-53 | the one removed still reads exactly what another of their grants covers, and everyone else what they read before |
| `KeyPermissions.LeaveIsUnshare` | src/app/api/files/leave/route.ts:32-43 | leaving is removing oneself, which every user but the owner may |
| `KeyPermissions.SetLevelExactly` | src/app/api/files/permission/route.ts:32-43 | a level changes if and only if the owner changes someone else's, to editor or viewer |
| `KeyPermissions.FinalizeExactly` | src/app/api/files/chunk-upload/route.ts:683-690 | the owner's finalize adds the file to its parent's finished children, anyone else's changes nothing |
| `KeyPermissions.FlagExactly` | README.md:328-353 | trashing hides exactly the rows named and restoring them gives back the database |
| `KeyPermissions.VersionExactly` | src/app/api/files/chunk-upload/route.ts:588-617 | a version lands only at its owner's request on a file, a restored one only on a visible file, and changes its session key and, if it has one, its claim |
| `KeyPermissions.CreateExactly` | src/app/api/files/folder/route.ts:48-93 | a create adds one row, as asked for and in its parent's workspace, and its owner's grant, if and only if the caller may write the parent and it is not refused as a file |
| `KeyPermissions.CreateOutcomes` | src/app/api/files/folder/route.ts:52-74 | viewers are told so, and to everyone else without permission the parent is not there |
| `KeyPermissions.CreateReaders` | src/app/api/files/folder/route.ts:48-93 | the new row is read by its owner and by those who read its parent, and no other row is read by anyone new |
| `KeyPermissions.MoveExactly` | src/app/api/files/[id]/move/route.ts:71-188 | a move changes place, workspace and claim of one row, if and only if the caller controls file and destination, the cycle check passes, and anyone but the owner stays within workspace or the owner's own drive |
| `KeyPermissions.MoveOutcomes` | src/app/api/files/[id]/move/route.ts:71-179 | what a move is answered, and what each refusal means |
| `KeyPermissions.MoveReaders` | src/app/api/files/[id]/move/route.ts:71-188 | after a move the rows moved are read through grants among them and by the readers of the destination, and all other rows by the same users |
| `KeyRotation.CommitEffect` | src/app/api/files/[id]/rotate-folder-commit/route.ts:200-254 | the statements run one after another write exactly the cells the commit is meant to write |
| `KeyRotation.FolderCommitStaysSound` | src/app/api/files/[id]/rotate-folder-commit/route.ts:119-254 | a folder commit that passes the exact-set checks leaves every wrap openable exactly when the parent's key and the children's keys are as seen and no upload into the folder is in flight |
| `KeyRotation.FileCommitStaysSound` | src/app/api/files/[id]/rotate-commit/route.ts:101-390 | a file commit does so exactly when the parent's key is as seen |
| `KeyServer.Database.RotateFolderCommit` | src/app/api/files/[id]/rotate-folder-commit/route.ts:102-254 | the route's checks and loops have precisely the specified outcome and effect, a refused commit none |
| `KeyFileRoute.FileStore.CheckChunks` | src/app/api/files/[id]/rotate-commit/route.ts:171-207 | the loop accepts the new chunks exactly if every key is bound to caller, file and sequence and not in use, all are of one rotation and no sequence repeats |
| `KeyFileRoute.VerdictExactly` | src/app/api/files/[id]/rotate-commit/route.ts:84-240 | the answer is that of the collaborator checks, else bad unless all keys are minted for caller, file and sequence in one rotation, uploaded and unused, else that of the quota check |
| `KeyFileRoute.FileStore.RotateCommit` | src/app/api/files/[id]/rotate-commit/route.ts:84-388 | the file route's checks and seven statements have precisely the specified outcome and effect, chunk rows without a version included |
| `KeyFileRoute.WholeEffect` | src/app/api/files/[id]/rotate-commit/route.ts:282-388 | an accepted request changes the keys as a file commit does, adds the new chunk rows, and removes exactly those old ones of the file that name a version; so the file is left with just the new chunks if and only if none of its rows had a NULL version |
| `KeyFileRoute.WholeVersions` | src/app/api/files/[id]/rotate-commit/route.ts:282-367 | an accepted request points the file at the new version, which carries the new session key and is the only one left of the file, and touches no other file's version or number |
| `KeyFileRoute.DownloadDuringCommit` | src/app/api/files/chunk-download/route.ts:45-60 | after each statement a download gets the old chunks until the row is written and exactly the new ones from then on; the exceptions are exactly files without a current version row |
| `KeyFileRoute.FailuresExactly` | src/app/api/files/[id]/rotate-commit/route.ts:369-382 | a refused request changes nothing; one that lists a user twice fails at the grants, when keys, version and chunks are already replaced |
| `KeyExamples.UnversionedChunkStays` | src/app/api/files/[id]/rotate-commit/route.ts:349-357 | an accepted rotation of a file with a chunk row of NULL version, after which that row stands next to the new one |
| `KeyFileRoute.RetryExactly` | src/app/api/files/[id]/rotate-commit/route.ts:258-280 | the same request after a stop is accepted while no chunk row is written, refused as bad from then on, and a conflict once all statements have run |
| `KeyFileRoute.EarlyRetryConverges` | src/app/api/files/[id]/rotate-commit/route.ts:258-280 | while it is accepted the retry ends with the keys and chunks of the uninterrupted request |
| `KeyFileRoute.OpensAfterStop` | src/app/api/files/[id]/rotate-commit/route.ts:272-280 | by a grant the old file opens until its row is written, nothing opens until the new grants are, and then the new file for exactly the remaining users |
| `KeyServer.RetryAfterCrashConverges` | src/app/api/files/[id]/rotate-folder-commit/route.ts:47-58 | after a stop at any statement the same request is accepted again and ends in the uninterrupted result; once all statements have run it is refused and the result is there |
| `KeyServer.ShareInTheMiddleGoesStale` | src/app/api/files/[id]/rotate-folder-commit/route.ts:119-254 | a share with a new user that lands after the checks and before any statement ends in the commit's complete result plus a grant that does not open |
| `KeyServer.NobodyOpensAfterTheFirstStatement` | src/app/api/files/[id]/rotate-folder-commit/route.ts:200-218 | between the first statement and the second no grant opens the folder |
| `KeyServer.RemainingUsersOpenTheFolder` | src/app/api/files/[id]/rotate-folder-commit/route.ts:216-229 | from the second statement on it opens under its new keys for exactly the remaining users |
| `KeyServer.ChildrenOpenOneByOne` | src/app/api/files/[id]/rotate-folder-commit/route.ts:231-246 | during the third step exactly the children already rewrapped open from the new folder key |
| `KeyWalk.ReadsByRoute` | src/components/move-modal.tsx:144-193 | where some claims do not open, a user reads exactly the files with a climb of claims that open to one of their grants |
| `KeyAccess.ReadersAfterCommit` | README.md:1251-1276 | after any accepted commit, whatever its view, a user reads exactly the files with such a climb through rows whose claims were kept, to a grant other than the one removed |
| `KeyAccess.FolderRotationPreservesAccess` | README.md:1251-1276 | that is, from a current view, everyone but the revoked user reads what they read before, at any depth, and the revoked user keeps exactly what another grant covers; keys change on the folder only, whatever the view |
| `KeyAccess.FileRotationPreservesAccess` | README.md:1219-1249 | the same for a file rotation, where only the parent's key can be out of date |
| `KeyLevels.RotationOutcomes` | src/app/api/files/[id]/rotate-folder-commit/route.ts:102-195 | what both rotations are answered, with both set checks spelled out element by element |
| `KeyLevels.RepeatedUserFails` | src/app/api/files/[id]/rotate-folder-commit/route.ts:200-229 | a folder commit that passes the checks but lists a user twice fails at the grants, with only the row written |
| `KeyLevels.FolderRotationKeepsPermissions` | src/hooks/use-files.ts:3363-3375 | after an accepted commit everyone but the revoked user has the permission they had, on every row, if and only if the levels listed are the current ones; the revoked user has what the other grants give |
| `KeyLevels.FileRotationKeepsPermissions` | src/hooks/use-files.ts:3052-3063 | the same for a file rotation |
| `KeyLevels.LevelsAreThoseOfTheContext` | src/app/api/files/[id]/folder-rotate-context/route.ts:89-97 | whatever happened since, a commit gives each remaining user the level of the context |
| `KeyLevels.LevelSetMeanwhileIsUndone` | src/app/api/files/permission/route.ts:32-43 | for instance after the owner changed a level in between, which the commit changes back |
| `KeyAccess.DerivableExactlyIfExposed` | README.md:1087-1102 | a private key follows from learned keys and all stored wraps exactly when some row from the file up to its root was learned or is granted to a known user key |
| `KeyAccess.SessionDerivableExactly` | README.md:1087-1102 | the same for session keys |
| `KeyCutOff.DerivableAfterCommit` | README.md:1278-1292 | after any accepted commit of either route and from any learned secrets, the new private and session key follow exactly if the new key is in reach, and any other file's key exactly if an entry leads to it around the rotated row |
| `KeyCutOff.RotationCutsOff` | README.md:1278-1292 | the revoked user derives the new folder and session keys exactly if the parent's key the client used is in reach, which a current one is not; and a descendant's key exactly through a row in between that was learned, is granted, or was in flight while the old folder key was known |
| `KeyCutOff.FileRotationCutsOff` | README.md:1219-1249 | after any accepted file rotation neither new key can be derived unless the parent's key the client used is in reach |
| `KeyExamples.UploadInFlightStaysInReach` | README.md:1283-1285 | a file the revoked user never opened, in flight during the rotation, is derivable afterwards |
| `KeyExamples.CachedParentKeyGivesAway` | src/hooks/use-files.ts:486-496 | an accepted commit under a cached old parent key makes the new folder key derivable for whoever learned that one |
| `KeyRuns.ApplyStaysSound` | README.md:1240-1276 | any one request keeps a sound database sound exactly if it was refused or its client was up to date |
| `KeyRuns.ReachableWalksAgree` | src/components/move-modal.tsx:144-180 | in every database reached by any of these requests, as long as those accepted came from up-to-date clients, the two branches agree along every path |
| `KeyLevels.RunKeepsOwners` | src/app/api/files/share/route.ts:83-94 | over whole runs each file keeps its owner, who holds the owner's level there, and nobody else does |
| `KeyLevels.GrantsGoExactly` | src/app/api/files/unshare/route.ts:32-53 | a grant goes exactly by an allowed unshare or leave or an accepted rotation |
| `KeyLevels.NewReadersAreLetIn` | README.md:1087-1102 | a request lets someone new read an existing file only by a share of it or of a row above, or by a move to where they read already, and its caller could read the file |
| `KeyLevels.ReadersAreLetIn` | README.md:1087-1102 | so over whole runs a file is read only by those who could at the start and those let in, one request after another, by people who could |
| `KeyRuns.NoStaleWrapSurvives` | README.md:1240-1276 | whatever is shared, removed, created, uploaded, replaced by a new version, finished, trashed or restored between context and commit, an accepted commit leaves every grant and claim openable if and only if no upload into the folder is in flight and every listed child has the session key it had; the owner is always still there |
| `KeyRuns.NoStaleWrapWithoutVersions` | README.md:1240-1276 | with no version of a listed child among those requests, uploads in flight are the only condition |
| `KeyRuns.NoStaleWrapSurvivesOnFiles` | README.md:1219-1249 | the same for a file rotation between init and commit |
| `KeyExamples.UploadInFlightGoesStale` | src/app/api/files/[id]/rotate-folder-commit/route.ts:164-195 | an unfinished upload is not in the checked set, and an accepted commit leaves its claim under the old key |
| `KeyRuns.ChildRotatedMeanwhileGoesStale` | src/app/api/files/[id]/rotate-folder-commit/route.ts:164-195 | the set check compares ids only, so whenever a listed file or folder is rotated after the context was read, an accepted commit leaves it under keys it no longer has |
| `KeyExamples.ChildRotationIsOvertaken` | src/app/api/files/[id]/rotate-folder-commit/route.ts:164-195 | a context read, an accepted rotation of the child and an accepted folder commit for which that happens |
| `KeyRuns.ChildReplacedMeanwhileGoesStale` | src/app/api/files/chunk-upload/route.ts:588-617 | the same for a listed child that gets a version with its own session key in between |
| `KeyRuns.VersionBegunBeforeGoesStale` | src/app/api/files/chunk-upload/route.ts:605-612 | and the other way round: a version with a claim that was made before its folder's rotation still lands after it, and its claim no longer opens |
| `KeyExamples.VersionIsOvertaken` | src/app/api/files/chunk-upload/route.ts:588-617 | a database and requests for the first of these |
| `KeyExamples.VersionComesTooLate` | src/app/api/files/chunk-upload/route.ts:605-612 | and for the second |
| `KeyExamples.TwoRequestsCloseALoop` | src/app/api/files/[id]/move/route.ts:154-163 | a create below an unfinished file and a move into it, both accepted, after which the parent links form a loop |
| `RateLimit.RateLimiter.Check` | README.md:266-289 | one call's new table and answer: insert, restart after expiry, count, or refuse on overflow |
| `RateLimit.ResetForgetsTheKey` | src/lib/auth/rate-limit.ts:47-55 | after a reset event the key is answered as if never called, and every other key as if nothing had happened |
| `RateLimit.ExactlyTheFirstCalls` | README.md:278-288 | from a restart until it expires exactly the first `max` calls are accepted |
| `RateLimit.SlidingWindowBound` | README.md:266-289 | on every run, with any other keys, prunes and resets in it, a closed interval as long as the window holds at most 2 * max - 1 accepted calls, plus max per reset inside it |
| `RateLimit.BoundIsReached` | README.md:278-288 | that number is reached for every limit and window from 1 on |
| `RateLimit.PruningIsUnobservable` | README.md:645 | with a clock that does not run back, any prunes anywhere change no answer |
| `RateLimit.PruningShowsWhenTheClockRunsBack` | README.md:645 | without that, one does |
| `RateLimit.KeysAreIndependent` | README.md:278-287 | a key's answers follow from its own row, calls and resets |
| `DownloadWorker.OwnPathIsRecognised` | public/download-sw.js:42 | the path of an id matches exactly if the id is nonempty and of letters, digits and dashes |
| `DownloadWorker.IdsExactly` | public/download-sw.js:42 | the characters of an id are the digits, capitals, small letters and the dash, by code point |
| `DownloadWorker.Worker.OnMessage` | public/download-sw.js:52-89 | a download-init registers a fresh stream under its id and acknowledges it; a malformed one does nothing |
| `DownloadWorker.Worker.OnPortMessage` | public/download-sw.js:98-131 | chunk, close and abort act on the port's own stream, registered or not |
| `DownloadWorker.Worker.OnFetch` | public/download-sw.js:135-168 | a fetch is passed on, answered 404, or consumes its entry |
| `DownloadWorker.DeliveryIsFaithful` | public/download-sw.js:60-131 | over every interleaving a response delivers a prefix of the chunks posted on its own port before the first close or abort; if it ends normally, all of them, and the close came before any abort; after an abort the stream is not open; and no stream is behind two responses |
| `DownloadWorker.AbortFails` | public/download-sw.js:124-129 | an abort that reaches an open stream makes it fail with nothing queued and nothing more delivered |
| `DownloadWorker.ReadDelivers` | public/download-sw.js:101-106 | a read takes the chunk queued first, and the last one after a close ends the download |
| `DownloadWorker.CancelTells` | public/download-sw.js:65-73 | a cancel ends an open stream and adds one "cancelled" behind the replies so far |
| `DownloadWorker.PostedExactly` | public/download-sw.js:52-133 | channels are numbered as their inits were accepted, and carry the messages queued at the init and those posted since, in that order |
| `DownloadWorker.DrainedMeansNothingDropped` | public/download-sw.js:107-123 | a page told "drained" and never "cancelled" has every chunk of its file delivered or queued |
| `DownloadWorker.FetchIsAnsweredExactly` | public/download-sw.js:141-167 | a fetch is answered exactly if the id was initialised and not fetched since, with the stream, name and type of its last init; a second fetch of a consumed id gets 404 |
| `DownloadWorker.OtherFetchesFallThrough` | public/download-sw.js:135-139 | every other request, and only those, leaves the worker untouched |
| `DownloadWorker.NeverNotFound` | public/download-sw.js:76-89 | with unused ids and navigation only after the ack no fetch is ever answered 404 |
| `Preview.FilePreview.OnResolved` | src/components/file-preview.tsx:111-121 | a finished fetch changes the screen only for the current generation |
| `Preview.OnlyTheLastLoadShows` | src/components/file-preview.tsx:80-140 | whatever ran before and whatever stale completions are mixed in, the screen is what the load started last would show on its own, and blank after a close |
| `Preview.UrlsTakeTurns` | src/components/file-preview.tsx:82-119 | blob URLs are adopted one at a time, each revoked once before the next, and only the held one is on screen |
| `Preview.OvertakenResultIsDropped` | src/components/file-preview.tsx:111 | a result that arrives too late changes neither screen nor URLs, so its URL stays unrevoked |
| `Search.Palette.OnResolve` | src/components/command-palette.tsx:103-131 | a finished search replaces the results only if it is the newest, filtered to the workspace of its closure |
| `Search.ScopedExactly` | src/components/command-palette.tsx:113-116 | scoping keeps each row of the workspace as often as it was found and drops the rest |
| `Search.LandedExactly` | src/components/command-palette.tsx:104-130 | the newest search, when it finishes, stores all rows found in its own workspace, in the order found, and nothing else; any other leaves rows and spinner alone |
| `Search.OnlyLandingsBringRows` | src/components/command-palette.tsx:106-144 | nothing else brings rows on screen, and a blank query shows none |
| `Search.OpeningEmpties` | src/components/command-palette.tsx:57-70 | opening, or switching the workspace while open, empties query, rows and spinner |
| `Search.KeystrokeStartsItsSearch` | src/components/command-palette.tsx:86-141 | a keystroke that rests starts one search for what was typed in the workspace of that moment, which outdates all others; a blank one is over at once |
| `Search.SpinnerExactly` | src/components/command-palette.tsx:100-134 | the spinner comes on for the newest running search only, and its failure takes it off |
| `Search.ResultsNeverGoBack` | src/components/command-palette.tsx:86-134 | over every run searches land in the order they were started, and the spinner is on only while the newest is unresolved |
| `Search.ResultsBelongToTheirSearch` | src/components/command-palette.tsx:106-144 | what is on screen belongs to the workspace in which the search that landed last was typed |
| `Search.LandingShowsTheActiveWorkspaceExactly` | src/components/command-palette.tsx:106-116 | a landing search stores only rows of the active workspace exactly if it was typed there or found nothing in its own |
| `Search.OldWorkspaceCanShow` | src/components/command-palette.tsx:57-144 | a search running across a switch of workspace lands, and with the next keystroke its rows of the old workspace are on screen |
| `FileOrder.AfterLastDotExactly` | src/components/file-browser.tsx:869-870 | the extension has no dot and is the whole name or follows a dot |
| `FileOrder.ConsistentExactly` | src/components/file-browser.tsx:859-882 | for every field and direction the comparator is a total preorder on a list exactly if no unparsable date meets two different dates in one block |
| `FileOrder.UnparsableDateBreaksTheOrder` | src/components/file-browser.tsx:877-881 | three files of one block for which it is not, in either direction |
| `FileOrder.StableSortIsUnique` | src/components/file-browser.tsx:853-882 | a result in order, with the same members and ties in input order exists and is the only one |
| `FileOrder.BlocksComeInOrder` | src/components/file-browser.tsx:859-863 | the list is a permutation, uploads first, folders before files in both directions, ties in input order |
| `FileOrder.FieldsInOrder` | src/components/file-browser.tsx:864-881 | within a block and in the direction chosen the list is in order of names, of extensions and then names, of sizes with a missing one as 0, or of dates |
| `FileOrder.TypeKeyExactly` | src/components/file-browser.tsx:868-872 | folders count as without extension, files by what follows the last dot or else the whole name, in lower case |
| `FileOrder.LabelledExactly` | src/components/file-browser.tsx:837-839 | with a label filter exactly the files that carry the label are shown |
| `FileOrder.RecentIsAPartition` | src/components/file-browser.tsx:853-858 | the recent view is the uploads followed by the rest, each in server order |
| `FileOrder.FlipReversesEachBlock` | src/components/file-browser.tsx:881 | flipping the direction turns around each block on its own |
| `FileOrder.FilterCommutesWithSort` | src/components/file-browser.tsx:837-839 | filtering by label before or after sorting gives the same list |
| `MockCipher.Cipher` | _backup/marketing-pre-mockup/page.tsx:54-73 | the two loops produce as many characters as asked for, the i-th from the i-th state of the generator seeded by the hash |
| `MockCipher.LettersInOrder` | _backup/marketing-pre-mockup/page.tsx:55-56 | the alphabet letter by letter |
| `MockCipher.XorParts` | _backup/marketing-pre-mockup/page.tsx:64 | exclusive or, bit by bit |
| `MockCipher.HashExtends` | _backup/marketing-pre-mockup/page.tsx:62-66 | FNV-1a with its published start value and prime, one character after the other |
| `MockCipher.FullPeriod` | _backup/marketing-pre-mockup/page.tsx:68-71 | a multiplier of 1 modulo 4 and an odd increment give full period modulo every power of two |
| `MockCipher.CharsRepeatExactly` | _backup/marketing-pre-mockup/page.tsx:68-71 | two characters are equal exactly if their distance is a multiple of 64 |
| `MockCipher.StatesRepeatExactly` | _backup/marketing-pre-mockup/page.tsx:68-70 | the 32-bit state comes back exactly after multiples of 2^32 steps |
| `MockCipher.AgreeEverywhereOrNowhere` | _backup/marketing-pre-mockup/page.tsx:61-72 | the outputs of two seeds agree in a character exactly if their hashes agree modulo 64, so in all characters or in none |
| `MockCipher.OneCharacterChanges` | _backup/marketing-pre-mockup/page.tsx:61-72 | seeds of one length that agree modulo 64 in all characters but one have the same output if they do there too, and outputs that differ everywhere if not |
| `Middleware.RedirectsExactly` | src/middleware.ts:44-112 | the guards of the two kinds of redirects and where each host redirect leads |
| `Middleware.HostsAnswerExactly` | src/middleware.ts:44-81 | who is closed out by maintenance, what is an error, and what the PDF host serves |
| `Middleware.SessionsAnswerExactly` | src/middleware.ts:83-112 | on every other host a session route sends the signed-out to /login and the signed-in from /login to /drive, and with a secret shorter than 32 whoever has a token to /login |
| `Middleware.MatchedExactly` | src/middleware.ts:121-129 | the middleware runs on every path outside the build output that does not end in an extension |
| `Middleware.NamedPaths` | src/middleware.ts:9-16 | the paths for users, for sign-in, for the viewer and those open during maintenance, by name |
| `Middleware.ChainsStopExactly` | src/middleware.ts:44-112 | following redirects from any host and path ends, by a decreasing measure, exactly unless it reaches a session route with a token and no usable secret |
| `Middleware.TwoHopsAreEnough` | src/middleware.ts:44-112 | with a usable secret two redirects are enough for every path that does not begin with two slashes |
| `Middleware.TwoHopsExactly` | src/middleware.ts:44-112 | and for the others unless the path names a host that the guards send on once more, to a request that they send on again, for its host or for its session |
| `Middleware.CanonicalHostIsTransparent` | src/middleware.ts:44-49 | a www address ends where the bare address with the same path and query ends |
| `Middleware.NestedHostsTakeMoreHops` | src/middleware.ts:44-49 | for paths that begin with two slashes no fixed number of redirects is enough |

## Left out

- Trash and keys are separate models of the same rows: the key model has a flag for deleted_at, and which rows a delete or a restore flags is the subject of `Trash.dfy`.
- Workspaces: the unscoped trash functions, the workspace trash listing and the removal of workspaces are not modelled; the trash model has the two workspace columns for the personal listing, the key model one for the guards of the move route.
- Trash.StepKeepsInvariant: grants and levels are not part of the trash model, so creates, moves and deletes are taken as permitted to whoever makes them; the permission checks are in `KeyCommits.dfy`.
- Trash.RunKeepsInvariant: stamps are fresh at each delete, because two deletes at one `now()` are one batch to the database; `Trash.RestoreUndoesSoftDelete` says exactly what a reused stamp breaks.
- KeyRuns.NoStaleWrapSurvives: moves and rotations between context and commit are not among its events; `KeyRotation.FolderCommitStaysSound` gives the exact condition for whatever happened in between, and `KeyRuns.ChildRotatedMeanwhileGoesStale` what a rotated child does.
- KeyFileRoute.FileStore.RotateCommit: the id and number of the new version row are parameters, as are the blobs found in storage and the quota check's answer; sizes, shards and nonces, the removal of blobs and link revocation are left out.
- File contents: presigned URLs, the version history and its pruning, evidence holds (which also refuse a download) and purging are not part of this model; a version enters the key model when it becomes the current one, with the keys it was made with.
- Public links: link keys, link revocation and the visitor's walk are not part of this model.
- Cryptography: X25519, the KEM, XChaCha20, HKDF, Argon2id and SRP are replaced by symbolic wraps, and a hybrid keypair by one key; metadata is represented by the session key it was sealed with.
- KeyCutOff.RotationCutsOff: speaks of what one user has learned; wraps in file_links and in old version rows are not part of this model, so a secret that only they contain counts as learned if it was opened.
- The key model runs one request at a time, except for the statements of a rotation commit, which may stop anywhere; of the requests that may run between them only shares are treated.
- Middleware.ChainsStopExactly: the reading of an authority by the URL parser is a parameter, the host of a request URL is taken to be its Host header, and every host is taken to be served by this middleware.
- FileOrder.BlocksComeInOrder: locale comparison and lower-casing are parameters, comparisons being any total preorders; with an inconsistent comparator the standard leaves the order open, and nothing is claimed.
- DownloadWorker.DeliveryIsFaithful: one lifetime of the worker; header formatting and `encodeURIComponent` are left out, and chunks are compared as the posted values.
- Preview.OnlyTheLastLoadShows: the fetch behind a preview always answers, as its own catch block makes it; zoom and navigation keys are left out.
- Search.ResultsNeverGoBack: which rows a query finds is a parameter; the list of quick actions is left out.
- RateLimit.SlidingWindowBound: times are whole milliseconds and adding the window to the clock does not overflow.
- React rendering, styling, row virtualisation, selection, billing, notifications, realtime channels and the other authentication flows would only add easy members.
