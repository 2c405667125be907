# Cloud storage backend: a verified model

This project models the parts of the backend whose correctness rests on invariants the code never writes down,
and proves those invariants and what follows from them for every input and every run.

- **Folder tree and trash.** Two tables, folders with `parent_id` and `deleted_at` and blobs with `folder_id`,
  `uploaded_at` and `deleted_at`, an object store, and a clock. `Forest` is the theory of parent pointers and of the
  recursive `UNION ALL` walks; `Tables` gives every statement and transaction as a function on the tables;
  `TreeInvariants`, `Trash` and `Effects` prove what the transactions keep and do; `Drive` is the service as a state
  machine of whole calls; `DriveStatements` is the same service with every transaction and every object-store call a
  step of its own, in any interleaving; `WholeCalls` gives each call's own statements and shows that they do what the
  call does; `DriveRuns` is about runs of whole calls; `Isolation` says what one user is promised against all others
  and against the background jobs; `Quota` is about used bytes; `StorageService` is the imperative form; `Boundaries` shows what happens just outside the assumptions.
- **Sessions.** `Sessions` has the statements on device sessions, refresh tokens, reset tokens, access tokens and the
  blocklist, and the service calls built from them. `SessionRuns` is about runs of whole calls, `SessionStatements`
  about arbitrary interleavings of single statements, `SessionCalls` about the statements of each call and about which
  calls can still sign for a revoked session, `SessionFrames` about whom a call affects and whom it leaves alone; `SessionService` is the imperative form.
- **SRP-6a.** `Codec` (big-endian and hex codecs, padding), `ModArith` (congruences and powers), `Srp` (the server and
  the client of section 2.6 of RFC 5054), `SrpStore` (the one-shot store of half-finished logins) and `LoginFlow`
  (LoginInit, LoginFinalize and password resets over all of these and the session stores), with `LoginService` as the
  imperative form.
- **Search, rate limit, audit.** `Like`, `RateLimiter`, `AuditQueue`.

`Prelude` and `Sums` hold shared helpers. `dafny verify dfyconfig.toml` checks the whole project.

## Conventions

- One nondecreasing clock is shared by all stores. A Redis key with expiry e is present at instants before e.
- Each SQL transaction, each Redis command and each object-store call is atomic. The service calls are not: they check in
  one transaction and act in another. `DriveStatements`, `SessionStatements` and the second half of `Quota` take one
  statement as a step, allow every interleaving, and say exactly which statements must find what for a property to hold
  throughout. `DriveRuns` and `SessionRuns` take whole, undisturbed calls as steps; `WholeCalls` and `SessionCalls` show
  that these are among the interleavings.
- The properties of the storage service are kept apart, each with its own exact condition: what the schema enforces and
  what the history records hold unconditionally; rows sit in place (`Placed`) if placing statements find their targets
  live and their owner's own; there are no cycles if no change of parent puts a folder below itself; live uploads have
  their objects if confirmations and restores find them and removals spare them; totals fit the quota if each fits when
  written. No one of these rests on another's condition. In particular the purge needs `Placed` only, and a cycle of
  parents, which deep or racing moves can close, leaves it exact.
- A recursive walk from a folder on a cycle never ends; its query is cancelled at the deadline, the call fails and the
  tables stay as they were (`DeadlineExceeded`).
- Where a property of whole calls needs them undisturbed, a racing schedule shows it fail, next to the exact condition:

  | race | schedule | exact condition |
  |---|---|---|
  | CreateFolder and a trashed parent | `Boundaries.RacingCreateBlocksPurge` | `TreeInvariants.InsertFolderKeepsPlacedIff` |
  | two moves | `Boundaries.RacingMovesCloseCycle` | `TreeInvariants.UpdateParentKeepsAcyclicIff` |
  | MoveBlob and a trashed folder | `Boundaries.RacingMoveBlobIsPurged` | `TreeInvariants.PutLiveBlobKeepsPlacedIff` |
  | HardDeleteBlob and a restore | `Boundaries.RacingRestoreLosesObject` | `DriveStatements.ExecKeepsBackedIff` |
  | two uploads and the quota | `Quota.RacingUploadsBreakTheQuota` | `Quota.ExecKeepsSolventIff` |
  | Refresh and a revocation | `SessionStatements.RacingRefreshOutlivesBlock` | `SessionStatements.ShutOutForeverIff` |
  | two logins of one device | `SessionStatements.RacingLoginsLeaveTwoRows` | `SessionStatements.OneLiveRowIff` |
- UUIDs, token hashes and client keys are fresh; access tokens cannot be forged; SHA-256 is an arbitrary function.
  Random values, the outcomes of object-store, blocklist and row-delete calls, and the passage of time are inputs.
- A failed object-store call leaves the store as it was.
- The service's `int64` sum of used bytes and declared size is modelled with its wrap-around.

## Where the code differs from its comments or intent

The model follows the code.

- internal/repo/persistent/postgres/folders.go:148 says the search prevents cycles. It does not for destinations more
  than 100 levels below the moved folder; `TreeInvariants.MoveFolderKeepsAcyclicIff` gives the exact condition and
  `Boundaries.DeepMoveClosesCycle` the inputs.
- internal/usecase/auth/service.go:443 says that a password reset ends an attacker's access at once. It does not end
  half-finished logins: one started before the reset can be finalized after it with the old password
  (`LoginFlow.OldPasswordLogsInAfterReset`), and exactly those can (`LoginFlow.OldPasswordIffStoredBefore`).
- internal/usecase/auth/service.go:271 and internal/repo/persistent/postgres/refresh_sessions.go:21-23 speak of
  non-expired tokens. The query has no expiry condition, so an expired token that was rotated out also counts as reuse.
- pkg/srp/srp.go:19 names RFC 5054; the constant is the 2048-bit modulus of section 3 of RFC 3526. The modulus is a
  parameter here.
- With `MaxUploadBytes` unset the quota comparison can wrap (`Quota.UnlimitedUploadsBreakTheQuota`).
- internal/usecase/storage/service.go:685-690 stores the real size without comparing it with the declared one, so an
  upload larger than declared can exceed the quota; `Quota.ConfirmKeepsSolventIff` gives the exact condition and
  `Quota.UnderstatedUploadBreaksTheQuota` an input.
- internal/repo/persistent/postgres/folders.go:265-273 passes a name clash during a restore on as the database's own
  error, unlike create, rename and move, which report a conflict.

## Model

| member | source | states |
|---|---|---|
| Forest.Walk | internal/repo/persistent/postgres/folders.go:173-189 | the unbounded `UNION ALL` walk lists the root and all its descendants, each exactly once, unless the root is its own ancestor; exactly then it never ends |
| Forest.WalkDivergesOnCycle | internal/repo/persistent/postgres/folders.go:234-241 | with the root on a cycle every iteration of the walk finds another row |
| Forest.SearchWithin | internal/repo/persistent/postgres/folders.go:149-163 | the level-by-level search answers "at most `limit` levels below", on cyclic tables too |
| Forest.ReparentAcyclic | internal/repo/persistent/postgres/folders.go:101-118 | giving a folder a new parent keeps the forest acyclic if and only if that parent is outside the folder's subtree |
| TreeInvariants.LiveChain | internal/repo/persistent/postgres/folders.go:152-158 | above a live folder everything is live, so the live-only walk sees the whole chain |
| TreeInvariants.SubtreeFacts | internal/repo/persistent/postgres/folders.go:307-313 | a subtree has one owner, is closed downward, and below a trashed root is trashed no later than the root |
| TreeInvariants.LiveSubtreeExact | internal/repo/persistent/postgres/folders.go:174-180 | the live-only walk from a live root lists exactly the live part of its subtree |
| TreeInvariants.DeleteTreeExact | internal/repo/persistent/postgres/folders.go:319-345 | the delete transaction succeeds if and only if detaching clashes with no name at the top level, which no set of trashed folders does, and the set is closed downward; it then removes those rows and changes no other |
| TreeInvariants.HardDeleteFolderKeepsPlaced | internal/repo/persistent/postgres/folders.go:289-348 | hard delete never fails on the key and never meets a cycle, removes exactly the subtree with its blobs, and keeps every other row in place |
| TreeInvariants.InsertFolderKeepsPlacedIff | internal/repo/persistent/postgres/folders.go:29-45 | the bare INSERT keeps all rows in place if and only if its parent is live and the caller's own at that instant |
| TreeInvariants.InsertClosesNoCycle | internal/repo/persistent/postgres/folders.go:29-45 | it never closes a cycle, whatever its parent |
| TreeInvariants.CreateFolderKeepsPlaced | internal/usecase/storage/service.go:260-281 | an undisturbed CreateFolder, check and insert together, keeps all rows in place |
| TreeInvariants.SearchFindsIff | internal/repo/persistent/postgres/folders.go:149-163 | for a live candidate the search finds exactly what is at most 100 levels below |
| TreeInvariants.CycleSearchExactIff | internal/repo/persistent/postgres/folders.go:149-163 | so it equals true reachability if and only if the destination is not more than 100 levels below |
| TreeInvariants.UpdateParentKeepsPlacedIff | internal/repo/persistent/postgres/folders.go:101-118 | the bare UPDATE of `parent_id` keeps all rows in place if and only if the new parent is live and the caller's own at that instant, cycle or not |
| TreeInvariants.UpdateParentKeepsAcyclicIff | internal/repo/persistent/postgres/folders.go:101-118 | it keeps the forest acyclic if and only if the new parent is outside the moved subtree, whatever else holds |
| TreeInvariants.PutLiveBlobKeepsPlacedIff | internal/repo/persistent/postgres/blobs.go:126-136 | writing a live blob row, by INSERT or by UPDATE of `folder_id`, keeps all rows in place if and only if its folder is live and its owner's own at that instant |
| TreeInvariants.MoveFolderKeepsPlaced | internal/usecase/storage/service.go:325-377 | an accepted and undisturbed move keeps all rows in place, however deep its destination |
| TreeInvariants.MoveFolderKeepsAcyclicIff | internal/usecase/storage/service.go:325-377 | it keeps the forest acyclic if and only if the destination is not more than 100 levels below the folder |
| TreeInvariants.MoveFolderAnswers | internal/usecase/storage/service.go:325-377 | what MoveFolder answers, case by case: not found for a folder or destination that is not an own live one, a cycle exactly for destinations up to 100 levels below, a conflict exactly for a taken name, else the folder has its new parent and nothing else changed |
| TreeInvariants.TrashFolderKeepsPlaced | internal/repo/persistent/postgres/folders.go:166-208 | trashing a subtree keeps trash closed downward, deletion times ordered along the tree and trash off cycles |
| TreeInvariants.RestoreFolderKeepsPlaced | internal/repo/persistent/postgres/folders.go:213-285 | restoring a subtree keeps all rows in place |
| Trash.SubtreeCallsStayWithUser | internal/repo/persistent/postgres/folders.go:166-348 | trash, restore and hard delete check only the root's owner, yet change no row of another user |
| Trash.TrashFolderEffect | internal/repo/persistent/postgres/folders.go:166-208 | the live folders of the subtree and the live blobs in them are stamped with the instant of the call; older trash keeps its stamp and everything else is as it was |
| Trash.TrashThenRestoreRows | internal/repo/persistent/postgres/folders.go:166-285 | trash then restore clears every deletion mark in the subtree and changes nothing else |
| Trash.TrashRestoreIdentityIff | internal/repo/persistent/postgres/folders.go:166-285 | trash then restore is the identity on both tables if and only if nothing below was in the trash before |
| Trash.RestoreFolderEffect | internal/repo/persistent/postgres/folders.go:210-285 | a successful restore makes the whole subtree live, reattaches the root to its old parent if that is live and to the top level otherwise, and leaves all other rows |
| Trash.ExpiredClosedDown | internal/repo/persistent/postgres/folders.go:427-448 | the folders chosen by timestamp alone form whole subtrees, and their blobs are all past the cutoff too |
| Trash.CleanExpiredTrashExact | internal/usecase/storage/service.go:535-552 | the age purge never trips RESTRICT and removes exactly the rows trashed before the cutoff |
| Trash.PurgeTakesSubtrees | internal/repo/persistent/postgres/folders.go:420-453 | every descendant and blob goes with each folder the purge deletes |
| Trash.EmptyTrashExact | internal/usecase/storage/service.go:464-485 | emptying removes exactly the user's trashed rows; its second half finds no blob the first left, so no key comes twice |
| Trash.ListedAncestorUnique | internal/repo/persistent/postgres/folders.go:350-367 | every trashed folder has exactly one ancestor-or-self in the trash listing |
| Trash.HardDeleteOne | internal/repo/persistent/postgres/folders.go:289-367 | deleting one listed item takes exactly it off the listing and leaves EmptyTrash the same result |
| Trash.HardDeleteAllIsEmptyTrash | internal/usecase/storage/service.go:415-485 | hard-deleting all listed folders and blobs, in any order, reaches the same tables as EmptyTrash |
| Effects.MoveFolderUndo | internal/usecase/storage/service.go:325-377 | moving a folder that is on no cycle away and back is accepted and restores the tables exactly |
| Effects.MoveBlobUndo | internal/usecase/storage/service.go:218-243 | the same for a blob, which in between lies in the destination |
| Effects.TrashRestoreBlob | internal/repo/persistent/postgres/blobs.go:251-288 | trashing and restoring a blob is the identity; a trashed folder is not restored into |
| Effects.CreateTwiceConflicts | migrations/000004_folders.up.sql:11-17 | the same user cannot create the same live name in the same place twice |
| Effects.CreateFolderAnswers | internal/usecase/storage/service.go:260-281 | what CreateFolder answers, case by case, with names of 1 to 255 characters, and the one row it adds |
| Effects.RenameFolderAnswers | internal/repo/persistent/postgres/folders.go:80-99 | the same for RenameFolder |
| Effects.RenameFolderUndo | internal/repo/persistent/postgres/folders.go:80-99 | a rename takes the new name and is undone by renaming back |
| Effects.RenameBlobUndo | internal/repo/persistent/postgres/blobs.go:139-148 | a blob takes its new name, only its owner can rename it, and renaming back undoes it |
| Effects.TrashAgesFromTheCall | internal/repo/persistent/postgres/folders.go:192-204 | what a call trashes is purged by exactly the cutoffs later than the call |
| DriveRuns.StepKeepsWorld | internal/usecase/storage/service.go:135-698 | every undisturbed service call keeps all rows in place, no upload confirmed twice and no handed-out key with a row, whatever fails and however deep a move |
| DriveRuns.RunKeepsWorld | internal/usecase/storage/service.go:163-698 | the same in every run of undisturbed calls with fresh ids |
| DriveRuns.PurgeSafeInEveryRun | internal/repo/persistent/postgres/folders.go:420-453 | in every state reached by undisturbed calls, cycles included, the age purge succeeds, taking whole subtrees and exactly the rows trashed longer ago than the time to live |
| DriveRuns.StepKeepsAcyclicIff | internal/usecase/storage/service.go:325-377 | the only call that can close a cycle is an accepted move to more than 100 levels below, and every such move does |
| DriveRuns.RunAcyclicIff | internal/usecase/storage/service.go:325-377 | for every run: there is never a cycle if and only if no accepted move is that deep |
| DriveRuns.StepKeepsBackedIff | internal/usecase/storage/service.go:163-188 | every uploaded row keeps its object through a call if and only if no hard delete of an uploaded blob stops between object and row |
| DriveRuns.RunBackedIff | internal/usecase/storage/service.go:163-188 | the same for every run, throughout |
| DriveRuns.TransactionStep | internal/usecase/storage/service.go:190-413 | a call that moves, renames, trashes or restores is its transaction at the instant of the call: all of it or, if it fails, nothing |
| DriveRuns.EmptyTrashStep | internal/usecase/storage/service.go:464-485 | emptying the trash as one change of tables, store and given-up keys |
| DriveRuns.CleanExpiredTrashStep | internal/usecase/storage/service.go:535-552 | the age purge as one change of tables, store and given-up keys |
| DriveRuns.HalfDoneSweep | internal/usecase/storage/service.go:464-552 | a sweep whose folder half fails has deleted its blob rows and removed no object |
| DriveRuns.CompleteStep | internal/usecase/storage/service.go:666-698 | completing confirms exactly an unconfirmed multipart upload of the caller whose parts were put together and whose size is known; the object is there from the first of these on; nothing else changes |
| DriveRuns.AbortUploadStep | internal/usecase/storage/service.go:487-517 | aborting removes exactly an unconfirmed upload of the caller, and the object only of a single PUT |
| DriveRuns.HardDeleteBlobStep | internal/usecase/storage/service.go:163-188 | only a trashed blob of the caller; the object goes first, then the row |
| DriveRuns.InitiateStep | internal/usecase/storage/service.go:598-647 | starting adds exactly one row, and only if admitted and stored |
| DriveRuns.SweptRowsLoseObjects | internal/usecase/storage/service.go:415-552 | the sweeping deletes take the object of every row they delete, as far as the store lets them |
| DriveRuns.DeletesSurvivors | internal/usecase/storage/service.go:415-552 | a deleting call changes no remaining row but for blobs that lose their folder, in whatever state |
| DriveRuns.DeleteSparesLive | internal/usecase/storage/service.go:415-552 | no hard delete, by any route, takes the row or the object of a live uploaded blob |
| DriveRuns.LiveUploadSurvives | internal/usecase/storage/service.go:135-698 | in every run of undisturbed calls, none of them a trashing one, a live uploaded blob keeps its row and its object, whatever fails |
| DriveStatements.ExecKeepsConsistent | migrations/000004_folders.up.sql:1-17 | every statement, in whatever state, keeps foreign keys, name checks, unique names, key format and no deletion mark from the future |
| DriveStatements.ExecKeepsHistory | internal/repo/persistent/postgres/blobs.go:201-211 | no statement confirms an upload twice or lets a row have a key that was handed out for removal, in whatever state the tree is |
| DriveStatements.InterleavingKeeps | internal/usecase/storage/service.go:135-698 | so in every interleaving, with no condition but fresh ids |
| DriveStatements.PlacingKeepsPlacedIff | internal/usecase/storage/service.go:266-276 | each statement that puts a row somewhere (folder and blob INSERT, UPDATE of `parent_id` and of `folder_id`), on its own, keeps all rows in place if and only if it finds its target live and its owner's own |
| DriveStatements.EmptyFoldersExact | internal/repo/persistent/postgres/folders.go:369-418 | the folder half of EmptyTrash, whatever happened since the blob half, trips no key and deletes only the user's trash |
| DriveStatements.PurgeFoldersExact | internal/repo/persistent/postgres/folders.go:420-453 | the folder half of the age purge, whatever happened since the blob half, trips no key and deletes only old trash |
| DriveStatements.DropsSurvivors | internal/repo/persistent/postgres/folders.go:319-345 | a deleting transaction, in whatever state, changes no remaining row but for blobs that lose their folder, and leaves no dangling key |
| DriveStatements.DroppingKeepsPlaced | internal/usecase/storage/service.go:415-552 | with all rows in place, a deleting transaction at any moment keeps them so and takes no live upload |
| DriveStatements.ExecKeepsPlacedIff | internal/usecase/storage/service.go:135-698 | any transaction or store call keeps all rows in place if and only if it places nothing or finds its target live and its owner's own |
| DriveStatements.ExecKeepsAcyclicIff | internal/usecase/storage/service.go:135-698 | any of them keeps the parents acyclic if and only if it is no change of parent that puts a folder below itself, in whatever state the rows are otherwise |
| DriveStatements.ExecKeepsBackedIff | internal/usecase/storage/service.go:163-188 | live uploads keep their objects if and only if a confirmation or restore finds the objects of the rows it brings to life and a removal hits no live upload, in whatever state the tree is |
| DriveStatements.InterleavingPlacedIff | internal/usecase/storage/service.go:224-369 | for every interleaving: all rows sit in place throughout if and only if every placing statement finds its place when it comes |
| DriveStatements.InterleavingAcyclicIff | internal/usecase/storage/service.go:351-369 | for every interleaving: there is never a cycle if and only if no change of parent puts a folder below itself |
| DriveStatements.InterleavingBackedIff | internal/usecase/storage/service.go:163-188 | for every interleaving: live uploads always have their objects if and only if every statement finds the objects it needs |
| DriveStatements.HandedOutKeysAreSafe | internal/usecase/storage/service.go:415-431 | in every interleaving, a key handed out by a row delete belongs to no row at any later time, so removing it hits no live upload |
| DriveStatements.PurgeSafeInterleaved | internal/repo/persistent/postgres/folders.go:420-453 | after every interleaving in which the placing statements find their places, moves that close cycles included, either half of the purge succeeds and takes whole subtrees of old trash, nothing live |
| DriveStatements.LiveUploadSurvivesInterleaving | internal/usecase/storage/service.go:135-698 | in every such interleaving, a live upload keeps its row and its object as long as nothing is trashed and its own key is not removed |
| WholeCalls.CallIsItsStatements | internal/usecase/storage/service.go:135-698 | every undisturbed call changes tables, store and history exactly as its own statements, listed by `StatementsOf`, do one after the other, and each of them finds its place |
| WholeCalls.RunIsItsStatements | internal/usecase/storage/service.go:135-698 | so every run of undisturbed calls is the interleaving of its calls' statements |
| Isolation.CallStaysWithCaller | internal/usecase/storage/service.go:135-698 | no call by one user changes, adds or removes a row or an object of another |
| Isolation.TrashedBlobComesBack | internal/repo/persistent/postgres/blobs.go:251-288 | a trashed blob can be restored exactly as it was, row and object, whatever others do and whichever jobs run, until a purge comes later than its time to live |
| Isolation.TrashedBlobPurgedIff | internal/repo/persistent/postgres/blobs.go:251-258 | left alone, a trashed blob is purged if and only if it has been in the trash longer than the time to live |
| Isolation.TrashedFolderPurgedIff | internal/repo/persistent/postgres/folders.go:192-204 | the same for everything a folder call trashed, folders and blobs |
| Isolation.UploadCanBeFinished | internal/usecase/storage/service.go:666-698 | an admitted multipart upload can be completed, whatever others do and whichever jobs run, until a clean-up comes later than its time to live |
| Isolation.StartedUploadCleanedIff | internal/repo/persistent/postgres/blobs.go:229-233 | left alone, an upload is cleaned up if and only if it was started longer ago than the time to live |
| Quota.RearrangeConservesUsed | internal/repo/persistent/postgres/blobs.go:15-22 | create, move, rename, trash and restore change nobody's used bytes |
| Quota.DeleteLowersUsed | internal/repo/persistent/postgres/blobs.go:15-22 | every delete lowers each user's used bytes by exactly that user's removed sizes, in whatever state the tree is |
| Quota.UploadAccounting | internal/repo/persistent/postgres/blobs.go:201-211 | a started upload adds its declared size, confirmation replaces it by the real one |
| Quota.QuotaCheckExactIff | internal/usecase/storage/service.go:616-618 | the wrapped comparison equals the true one if and only if the sum fits in int64 |
| Quota.CheckNeverWraps | internal/usecase/storage/service.go:604-619 | with both limits set and their sum in range, no evaluation of the check overflows, for refused uploads as for admitted ones, and it admits exactly what fits |
| Quota.AdmittedIff | internal/usecase/storage/service.go:604-626 | an upload is let in if and only if it is within the upload limit and the quota and goes into an own live folder or none |
| Quota.AdmittedAtTheEdges | internal/usecase/storage/service.go:604-619 | without limits only the folder counts; a total beyond int64 is refused |
| Quota.AdmittedFits | internal/usecase/storage/service.go:604-619 | so what it admits fits the quota |
| Quota.CheckExactInEveryRun | internal/usecase/storage/service.go:604-619 | no evaluation overflows at any moment of any honest run |
| Quota.StepKeepsSolventIff | internal/usecase/storage/service.go:598-698 | with such limits an undisturbed call keeps everybody within the quota if and only if a confirmed real size fits |
| Quota.RunSolventIff | internal/usecase/storage/service.go:598-698 | for every run, whatever becomes of the tree: nobody ever exceeds the quota if and only if every confirmed size fits |
| Quota.RunKeepsSolvent | internal/usecase/storage/service.go:598-698 | so nobody does in any run with confirmed sizes no larger than declared |
| Quota.ExecKeepsSolventIff | internal/repo/persistent/postgres/blobs.go:24-33 | a single statement, whatever the state of the tree, keeps everybody within the quota if and only if the total it writes fits at that moment |
| Quota.InterleavingSolventIff | internal/usecase/storage/service.go:598-698 | for every interleaving: nobody ever exceeds the quota if and only if each inserted and each confirmed total fits when it is written |
| Quota.ConfirmKeepsSolventIff | internal/usecase/storage/service.go:685-690 | a confirmation keeps the quota if and only if used bytes plus the real minus the declared size are within it |
| Quota.UnlimitedUploadsBreakTheQuota | internal/usecase/storage/service.go:604-619 | with no upload limit, two concrete calls from the empty service wrap the check and pass it |
| Quota.UnderstatedUploadBreaksTheQuota | internal/usecase/storage/service.go:685-690 | two concrete calls from the empty service exceed the quota by an upload larger than declared |
| Quota.RacingUploadsSolventIff | internal/usecase/storage/service.go:611-632 | two uploads admitted on the same tables keep the quota after both inserts if and only if they fit together |
| Quota.RacingUploadsBreakTheQuota | internal/usecase/storage/service.go:611-632 | two concrete racing uploads from the empty service exceed it |
| Boundaries.DeepMoveClosesCycle | internal/repo/persistent/postgres/folders.go:149-163 | every chain of more than 101 folders is reached from the empty service; moving its top into its bottom is accepted, closes a cycle, and makes the trash walk endless, so that the trash call fails at its deadline |
| Boundaries.RacingCreateBlocksPurge | internal/usecase/storage/service.go:260-281 | if the parent is trashed between CreateFolder's check and its insert, the purge later fails on RESTRICT |
| Boundaries.RacingMovesCloseCycle | internal/usecase/storage/service.go:351-369 | any two moves, of folders into each other, that pass their checks on the same tables both go through and close a cycle, at whatever depth |
| Boundaries.TwoFoldersReached | internal/usecase/storage/service.go:260-281 | two folders at the top level are such a state, reached from the empty service |
| Boundaries.TwoFoldersRace | internal/usecase/storage/service.go:351-369 | there each move alone is accepted and nothing is deep |
| Boundaries.RacingMoveBlobIsPurged | internal/usecase/storage/service.go:224-234 | if a blob's destination is trashed between MoveBlob's check and its update, the purge later succeeds and deletes the live blob |
| Boundaries.RacingRestoreLosesObject | internal/usecase/storage/service.go:167-179 | if a blob is restored between HardDeleteBlob's look-up and its removal, a live upload loses its object |
| Boundaries.RacingCreateFromEmpty | internal/usecase/storage/service.go:260-281 | the first of these schedules from the empty service, with the earlier check passing |
| Boundaries.UploadFromEmpty | internal/usecase/storage/service.go:598-698 | an upload from the empty service, where the next two start |
| Boundaries.RacingMoveBlobFromEmpty | internal/usecase/storage/service.go:224-234 | the MoveBlob schedule from there, with the earlier check passing |
| Boundaries.RacingRestoreFromEmpty | internal/usecase/storage/service.go:167-179 | the HardDeleteBlob schedule from there, with the earlier look-up finding the row |
| Boundaries.HardDeleteBlobBackedIff | internal/usecase/storage/service.go:163-188 | after RemoveObject, uploaded rows stay backed if and only if the row delete succeeds or the row was never uploaded |
| StorageService.ScanObjectKeys | internal/repo/persistent/postgres/blobs.go:383-393 | the scan of a DELETE ... RETURNING yields each deleted row's key exactly once |
| StorageService.Service.IsDescendantOf | internal/repo/persistent/postgres/folders.go:149-163 | the search method decides the specified relation |
| StorageService.Service.ListTrashedFolders | internal/repo/persistent/postgres/folders.go:350-367 | lists exactly the topmost trashed folders, without repetition |
| StorageService.Service.GetUserStorageUsed | internal/repo/persistent/postgres/blobs.go:15-22 | the scan computes the sum of the user's sizes |
| StorageService.Service.CreateFolder | internal/usecase/storage/service.go:260-281 | does the state machine's step and reports its error |
| StorageService.Service.MoveFolder | internal/usecase/storage/service.go:325-377 | checks in the source's order, then does the state machine's step and reports its error |
| StorageService.Service.DeleteFolder | internal/usecase/storage/service.go:379-399 | walk, then stamp: the state machine's trash step |
| StorageService.Service.RestoreFolder | internal/usecase/storage/service.go:401-413 | walk, parent check, update, rollback with the database's error on a name clash: the state machine's restore step |
| StorageService.Service.HardDeleteFolder | internal/usecase/storage/service.go:415-431 | removes the subtree, returns each blob's key once and removes the objects best effort |
| StorageService.Service.EmptyTrash | internal/usecase/storage/service.go:464-485 | two transactions; the keys returned are those of the user's trashed blobs, each once |
| StorageService.Service.CleanExpiredTrash | internal/usecase/storage/service.go:535-552 | two transactions; the keys returned are those of the expired blobs, each once |
| StorageService.Service.HardDeleteBlob | internal/usecase/storage/service.go:163-188 | object first, then row; succeeds exactly if both do, and row and object are then gone |
| StorageService.Service.AbortUpload | internal/usecase/storage/service.go:487-517 | store first, then row; succeeds only if both do |
| StorageService.Service.MoveBlob | internal/usecase/storage/service.go:218-243 | does the state machine's step and reports its error; the blob lies in the destination, the invariants hold, and moving back restores the tables |
| StorageService.Service.InitiateMultipartUpload | internal/usecase/storage/service.go:598-647 | admits exactly the uploads within size limit, wrapped quota check and own live folder |
| StorageService.Service.CompleteMultipartUpload | internal/usecase/storage/service.go:666-698 | succeeds exactly when the upload gets confirmed; the blob is then live with its real size and its object, and the invariants hold |
| StorageService.Service.CleanOrphanedBlobs | internal/usecase/storage/service.go:519-533 | removes rows first and then only the objects of single-PUT uploads |
| SessionRuns.SessionForIsActive | internal/repo/persistent/postgres/device_sessions.go:14-49 | a login gets the user's active session of the same device name if there is one, and only then; otherwise a new one, never a revoked one |
| SessionRuns.ReachableStatesAreGood | internal/usecase/auth/service.go:94-528 | every state reachable from the empty stores satisfies the invariant of the next row |
| SessionRuns.RunKeepsInv | internal/usecase/auth/service.go:219-528 | in every run each device session has at most one unrevoked refresh row, rows match their session's user, chains stay linked, access tokens expire within one lifetime |
| SessionRuns.ChainSharesKey | internal/usecase/auth/service.go:483-503 | all tokens rotated out of one login carry the same 32-byte client key, user and session |
| SessionRuns.SealingCallSeals | internal/usecase/auth/service.go:261-349 | revoking and blocking covers every access token the session ever got until it expires |
| SessionRuns.RunKeepsSealed | internal/usecase/auth/service.go:94-528 | no later call signs a token for such a session, revives it or touches its blocklist entry |
| SessionRuns.RevokedForever | internal/controller/restapi/middleware.go:77-93 | after RevokeDeviceSession, RevokeOtherDeviceSessions, ResetPassword or reuse detection with a successful block, no access or refresh token of the session is accepted in any continuation |
| SessionRuns.ReuseEndsChain | internal/usecase/auth/service.go:229-292 | presenting a rotated-out token of an active session ends all its tokens for good; a token never issued changes nothing |
| SessionRuns.SealedSessionHasNoLiveRow | internal/repo/persistent/postgres/device_sessions.go:107-116 | ending a session revokes its refresh rows with it |
| SessionRuns.CleanupSparesUsable | internal/repo/persistent/postgres/device_sessions.go:168-191 | the orphan clean-up changes the usability of no refresh token and leaves no active session without a usable one |
| SessionRuns.LoginPairWorks | internal/usecase/auth/service.go:470-528 | after a login the new access token is accepted and the new refresh token usable, each exactly until it expires, the access token at the last whole second of its lifetime |
| SessionRuns.RotatedPairWorks | internal/usecase/auth/service.go:219-256 | the same after a rotation, and the token given in is dead |
| SessionRuns.OnlyNewestResetTokenWorks | internal/repo/persistent/postgres/password_reset.go:12-50 | after a reset request the new token is the user's only valid one, for one hour |
| SessionStatements.TokensConsumedOnce | internal/repo/persistent/postgres/refresh_sessions.go:43-64 | under any interleaving of statements each refresh token and each reset token is consumed at most once |
| SessionStatements.ExecKeepsResetOnce | internal/repo/persistent/postgres/password_reset.go:54-72 | no statement lets a spent reset token be spent again |
| SessionStatements.RevokedNeverConsumed | internal/repo/persistent/postgres/device_sessions.go:86-117 | under any interleaving a revoked session stays revoked and no token of it is consumed again |
| SessionStatements.ExecKeepsContainedIff | internal/repo/cache/redis/session_blocklist.go:24-39 | a revoked and covered session stays so after a statement if and only if that statement does not sign a token of it past now and past its blocklist entry |
| SessionStatements.ShutOutForeverIff | internal/controller/restapi/middleware.go:77-93 | for every interleaving: no access or refresh token of such a session is accepted at any later instant if and only if none is ever signed past the entry |
| SessionStatements.BlockedForeverIff | internal/usecase/auth/service.go:328-349 | the same for any session revoked and then blocked after any interleaving from the empty stores |
| SessionStatements.RacingRefreshOutlivesBlock | internal/usecase/auth/service.go:219-256 | the failing case: a rotation overtaken by a revocation signs past the entry, and the token is accepted once the entry is gone |
| SessionStatements.OneLiveRowIff | internal/usecase/auth/service.go:470-528 | for every interleaving: a session has at most one unrevoked refresh row throughout if and only if each insert finds none |
| SessionStatements.RacingLoginsLeaveTwoRows | internal/repo/persistent/postgres/device_sessions.go:14-49 | two logins of one named device that both upsert before either inserts leave its session two usable refresh tokens |
| SessionStatements.RacingRefreshFromEmpty | internal/usecase/auth/service.go:219-256 | one login from the empty stores leads to the first of these schedules |
| SessionStatements.RacingLoginsFromEmpty | internal/repo/persistent/postgres/device_sessions.go:14-49 | and to the second |
| SessionCalls.CallIsItsStatements | internal/usecase/auth/service.go:94-528 | every undisturbed call changes the stores exactly as its own statements, listed by `StatementsOf`, do one after the other, and signs only for a session active at that moment |
| SessionCalls.RunIsItsStatements | internal/usecase/auth/service.go:94-528 | so every run of undisturbed calls is the interleaving of its calls' statements |
| SessionCalls.RunNeverSignsPast | internal/usecase/auth/service.go:94-528 | undisturbed calls never sign past a blocklist entry, so a revoked and blocked session stays shut out |
| SessionCalls.OnlyOpenCallsSign | internal/usecase/auth/service.go:219-256 | for every interleaving of calls: once a session is revoked only calls already past their consumption or upsert can sign for it, one token each |
| SessionCalls.NoOpenCallShutOut | internal/usecase/auth/service.go:219-256 | if there is no such call when a session has been revoked and blocked, it is shut out for good in every interleaving |
| SessionFrames.CallLeavesOthers | internal/repo/persistent/postgres/device_sessions.go:86-166 | every call leaves each session it neither names nor sweeps exactly as it was: device row, refresh rows, blocklist entry, access tokens |
| SessionFrames.SweptLosesNothing | internal/repo/persistent/postgres/device_sessions.go:168-191 | a session that is only swept has no usable refresh token before, and nothing but its device row changes |
| SessionFrames.OthersStayUsable | internal/repo/persistent/postgres/device_sessions.go:86-191 | so everyone not named by a call can use the same refresh and access tokens after it as before |
| SessionFrames.ResetTokensOfOthers | internal/repo/persistent/postgres/password_reset.go:12-72 | only asking for or using a reset token changes reset tokens, and only the user's own |
| SessionFrames.FailedCalls | internal/usecase/auth/service.go:219-464 | a refused call changes nothing; one that fails midway leaves what it had done by then and no token |
| SessionFrames.EndedSessionIsRevoked | internal/repo/persistent/postgres/device_sessions.go:86-166 | revocation, reuse, reset and logout revoke the session and all its refresh rows, block or no block; logout leaves access tokens alone |
| SessionFrames.LoginRegistersDevice | internal/usecase/auth/service.go:470-528 | after a login its session is active, the user's own and known under the device's name, with the new row and key |
| SessionFrames.LoginEndsEarlierTokens | internal/repo/persistent/postgres/device_sessions.go:14-49 | a login on a device that is logged in keeps the session and ends its earlier refresh tokens |
| SessionService.Service.CreateDeviceSession | internal/repo/persistent/postgres/device_sessions.go:14-49 | the upsert method does the specified statement and keeps one active session per named device |
| SessionService.Service.ConsumeRefreshSession | internal/repo/persistent/postgres/refresh_sessions.go:43-64 | succeeds exactly on an unrevoked, unexpired token of an active session, and revokes it |
| SessionService.Service.RevokeSession | internal/repo/persistent/postgres/device_sessions.go:86-117 | revokes the session and its rows exactly when it is the user's and active |
| SessionService.Service.RevokeOtherSessions | internal/repo/persistent/postgres/device_sessions.go:119-166 | revokes all other active sessions and returns each revoked id once |
| SessionService.Service.BlockBatch | internal/repo/cache/redis/session_blocklist.go:29-39 | every id gets an entry of one access lifetime, other entries stay |
| SessionService.Service.IssueTokenPairForDevice | internal/usecase/auth/service.go:487-528 | signs a token and inserts the row, keeping a given client key and replacing an empty one; for an active session both tokens work, each exactly until it expires |
| SessionService.Service.Login | internal/usecase/auth/service.go:164-217 | what LoginFinalize does once the proof is accepted, and Register once the user row is in: clean-up, upsert and token pair |
| SessionService.Service.Refresh | internal/usecase/auth/service.go:219-256 | rotates a consumable token, handles reuse of a revoked one, ignores an unknown one |
| SessionService.Service.RevokeDeviceSession | internal/usecase/auth/service.go:328-336 | blocks only what it revoked |
| SessionService.Service.RevokeOtherDeviceSessions | internal/usecase/auth/service.go:338-349 | blocks exactly the sessions it revoked |
| SessionService.Service.ResetPassword | internal/usecase/auth/service.go:424-464 | spends the token, and only after the credentials are stored revokes and blocks all sessions |
| SessionService.Service.Logout | internal/usecase/auth/service.go:294-322 | consumes the token and revokes its session, with no blocklist entry |
| SessionService.CallKeepsOneActive | migrations/000002_device_sessions.up.sql:17-19 | no call leaves two active sessions for one named device of a user |
| Codec.Pad | pkg/srp/srp.go:67-76 | the buffer filled by `pad` is the left-padded encoding |
| Codec.PaddedWidth | pkg/srp/srp.go:67-76 | up to the modulus the padded width is the modulus' own byte length |
| Codec.PaddedInjective | pkg/srp/srp.go:67-76 | padding is injective |
| Codec.NatOfConcat | pkg/srp/srp.go:95-101 | bytes are read big-endian |
| Codec.HexIsLowerCase | pkg/srp/srp.go:113-123 | encoding writes lower-case digits only, two a byte |
| Codec.UpperCaseDigit | pkg/srp/srp.go:142-148 | decoding does not care about the case of a digit |
| Codec.HexRoundTrip | pkg/srp/srp.go:113-123 | decoding an encoded byte string gives it back |
| Codec.HexDecodeSucceedsIff | pkg/srp/srp.go:142-148 | decoding fails exactly on odd length or a character that is no hex digit |
| ModArith.PowerOfTwoNotZero | pkg/srp/srp.go:163-166 | an odd modulus above 1, prime or not, divides no power of two |
| Srp.ComputeXorNG | pkg/srp/srp.go:57-65 | the buffer filled byte by byte is H(N) xor H(g) |
| Srp.SecretsAgree | pkg/srp/srp.go:187-202 | for all exponents the server's (A·v^u)^b and the client's (B − k·g^x)^(a+u·x) are equal modulo N |
| Srp.HonestHandshakeAccepted | pkg/srp/srp.go:156-185 | over the hex formats, the proof of a client that computes everything from the hash by itself is always accepted and answered with the M2 it expects |
| Srp.MultiplesOfNRejected | pkg/srp/srp.go:163-166 | every A that is a multiple of N is refused, whatever the proof |
| Srp.SessionMade | pkg/srp/srp.go:90-111 | a new session has the stored verifier, b from the random bytes and B = (k·v + g^b) mod N, with k written out from the hash |
| Srp.OnlyTheProofIsAccepted | pkg/srp/srp.go:156-215 | a proof is accepted if and only if it is the hash of H(N) xor H(g), H(I), salt, pad(A), pad(B) and H(pad(S)), written out with S = (A·v^u)^b mod N, and the answer is then determined |
| Srp.EqualProofsAgree | pkg/srp/srp.go:205-215 | unless the hash collides on the two messages, equal proofs have the same key, B, salt and A |
| Srp.WrongSecretRefused | pkg/srp/srp.go:173-180 | unless the hash collides, a proof made with another secret than the session's is refused |
| Srp.SnapshotRoundTrip | pkg/srp/srp.go:117-140 | every session, zeros and leading zeros included, survives snapshot and restore |
| SrpStore.StoreThenConsume | internal/repo/cache/redis/srp_sessions.go:42-123 | a stored login comes back whole up to millisecond expiry, exactly while its key lives and in no millisecond after its expiry, surely until a millisecond before it, and only once |
| SrpStore.ConsumedAtMostOnce | internal/repo/cache/redis/srp_sessions.go:70-89 | in every run no login session is consumed twice |
| SrpStore.Sessions.Store | internal/repo/cache/redis/srp_sessions.go:42-68 | refuses expired entries and otherwise writes the record with its lifetime; it can be consumed whole until a millisecond before it expires |
| SrpStore.Sessions.Consume | internal/repo/cache/redis/srp_sessions.go:70-123 | removes the record whatever happens and returns it only if still good |
| Srp.CheckProof | pkg/srp/srp.go:156-185 | the method decides proofs as specified, in the source's order of checks |
| LoginFlow.ReachableStatesAreGood | internal/usecase/auth/service.go:120-217 | in every run of logins, session calls, registrations and password resets by any clients: the session invariant holds, clocks agree, user ids stay unique, no login session is taken twice |
| LoginFlow.UsedIdNeverAnswers | internal/usecase/auth/service.go:170-173 | a session id presented once, with whatever proof, gets no answer in any continuation |
| LoginFlow.SlotStays | internal/usecase/auth/service.go:140-153 | no step that does not present its session id touches a half-finished login, changes of the account included |
| LoginFlow.OnlyTheProofLogsIn | internal/usecase/auth/service.go:164-187 | LoginFinalize changes the session stores only for a held login, an A that is no multiple of N, and the one proof of its session key |
| LoginFlow.WrongSecretNotLetIn | internal/usecase/auth/service.go:164-187 | unless the hash collides, a proof made with another secret leaves the session stores as they were |
| LoginFlow.FinalizeWithoutRow | internal/usecase/auth/service.go:195-198 | a login whose refresh row cannot be inserted hands out no token |
| LoginFlow.UnfinishedLoginExpires | internal/usecase/auth/service.go:140-153 | a login not finalized within five minutes and a millisecond gets no answer |
| LoginFlow.HonestLogin | internal/usecase/auth/service.go:120-217 | whatever other clients do meanwhile, an honest client, which uses the trimmed and lower-cased address as its identity, finalizing within five minutes less a millisecond gets the M2 it expects, its own key material and a working token pair of its own account, and its session id never answers again |
| LoginFlow.HonestLoginAtOnce | internal/usecase/auth/service.go:120-217 | its assumptions are met in every good state: any account with any fresh ids can log in at once |
| LoginFlow.OldPasswordIffStoredBefore | internal/usecase/auth/service.go:424-464 | until the next reset of an account, a login of it that is still held is checked against the old password if and only if it was stored before the reset, and otherwise against the new one |
| LoginFlow.OldPasswordLogsInAfterReset | internal/usecase/auth/service.go:424-464 | a client that started to log in before a reset is logged in after it with the old password, whatever the new credentials |
| LoginFlow.AccountReached | internal/usecase/auth/service.go:94-118 | every account such a client can have is reached from the empty service |
| LoginFlow.CredentialsChangeOnlyByReset | internal/usecase/auth/service.go:424-441 | only a reset with a valid token whose update succeeds changes credentials, and only those of the token's user |
| LoginService.Service.LoginInit | internal/usecase/auth/service.go:120-162 | does the step of the login machine and answers with the session id, the account's salts and B; nothing for an unknown address or a verifier that is no hex |
| LoginService.Service.LoginFinalize | internal/usecase/auth/service.go:164-217 | consume, check the proof, log in: the step of the login machine, answering exactly if the proof is accepted and the row inserted, with M2, the user id and the account's key material as stored |
| Like.EscapeIsCharacterwise | internal/repo/persistent/postgres/storage.go:17-22 | the three replacement passes equal one escape per character |
| Like.SearchFindsSubstrings | internal/repo/persistent/postgres/storage.go:17-22 | the escaped pattern between two `%` matches exactly the texts containing the query literally |
| Like.SearchFindsSubstringsIgnoringCase | internal/repo/persistent/postgres/blobs.go:150-160 | with ILIKE, exactly the texts containing it up to case |
| RateLimiter.AtMostLimitPerCounter | internal/repo/cache/redis/rate_limiter.go:12-18 | one counter lets at most `limit` calls through before it expires |
| RateLimiter.LessThanTwiceLimit | internal/repo/cache/redis/rate_limiter.go:31-39 | for any ordered call times, at most 2·limit − 1 calls pass in any half-open interval of one window |
| RateLimiter.BurstIsReached | internal/repo/cache/redis/rate_limiter.go:31-39 | that bound is attained for every limit |
| RateLimiter.ModestCallerAlwaysAllowed | internal/repo/cache/redis/rate_limiter.go:31-39 | a caller making at most `limit` calls in every such interval is never refused |
| RateLimiter.Limiter.Allow | internal/repo/cache/redis/rate_limiter.go:31-39 | counts one call on its key, decides by the new count, leaves other keys alone |
| AuditQueue.RunKeepsInv | internal/usecase/audit/service.go:44-88 | in every interleaving accepted events are, in order, the handled, the one in progress and the queued |
| AuditQueue.EveryEventInOnePlace | internal/usecase/audit/service.go:44-88 | every logged event is exactly one of dropped, queued, in progress, inserted, given up after three attempts; the queue never exceeds 512, and each dropped event met a channel holding the last 512 events accepted by then |
| AuditQueue.InsertionKeepsOrder | internal/usecase/audit/service.go:44-61 | inserted events are a subsequence of the accepted ones |
| AuditQueue.ExitLeavesNothingBehind | internal/usecase/audit/service.go:49-58 | the worker leaves only after cancellation with everything accepted so far handled; what is queued afterwards came later |
| AuditQueue.Service.LogAsync | internal/usecase/audit/service.go:65-71 | accepts exactly when fewer than 512 events are queued, never blocks |
| AuditQueue.Service.InsertWithRetry | internal/usecase/audit/service.go:73-88 | stops at the first success and gives up after exactly three failures, whatever producers log meanwhile |
| AuditQueue.Service.Drain | internal/usecase/audit/service.go:51-58 | with producers logging at any points between the worker's steps, in finitely many turns, the loop ends, leaves the queue empty and every event accepted so far handled |

## Left out

- HTTP handlers, DTO validation, cookies, router, mailer, sharing, favorites, user agents, configuration: short guards and plumbing.
- File and folder listings other than the trash listings, presigned URLs, file-name clean-up: they change no state. A failing presign after the row was inserted leaves the same state as success.
- Columns no property depends on: content type, chunk size, encrypted keys, device name, address, last activity, the instants of revocation.
- Statement errors other than those named (lost connections, timeouts): a call that fails midway is modelled only where the source handles it (object store, blocklist, row delete after removal, insert of the refresh row, update of the credentials).
- SHA-256, HMAC and JWT signing, random generation and constant-time comparison: fresh, unforgeable or arbitrary values.
- The JSON and base64 layers of the stored login record; its hex session snapshot is modelled.
- Sub-millisecond access lifetimes, and differences between the clocks of server, database and Redis.
- Freedom from leaked objects and multipart uploads: several removals are best effort, so it is not a property of the code.
- SessionService.Service.Login: the proof check before it is in `LoginService.Service.LoginFinalize`; the user row of Register is an input.
- LoginFlow: what LoginFinalize does after an accepted proof is one step; interleavings of its statements are in `SessionStatements`. The audit event of a failed proof is left out.
