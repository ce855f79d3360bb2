# MyCloud: a verified model

This project models the parts of MyCloud whose correctness is hardest to see from the code: the
encrypted blob format and its byte-range reader, the deduplicated file store with its reference counts
and quotas, the folder forest, the desktop sync engine, four protocols that run over time, and three
algorithms. `dafny verify dfyconfig.toml` checks everything.

Code that changes state keeps that form: classes with the source's fields, methods with its branches
and loops, each proved against a specification function or relation about which the lemmas are proved.

| part | files |
|---|---|
| blob format | `ChunkStore`, `ByteRange` |
| file store | `Rows`, `Sums`, `BlobRefs`, `BlobStore`, `StoreTransactions`, `PlainStore`, `QuotaLedger` |
| folders | `FolderForest`, `FolderCopy`, `Workspace`, `RowEffects`, `SharedFolders` |
| desktop sync | `LocalTree`, `WorkerPool`, `SyncState`, `RenameRemap`, `SyncEngine` |
| protocols | `SessionTokens`, `TokenRaces`, `DevicePairing`, `PairingRaces`, `RateLimiter`, `Subscriptions` |
| algorithms | `EditDistance`, `EditComposition`, `SqlSplitter`, `Pagination` |
| shared | `Arithmetic`, `Lists`, `Options`, `Text` |

## What is taken as given

- The cipher is a pair of functions that undo each other; the content hash is free of collisions. A
  blob on disk opens only with its own key.
- A database transaction, a Redis command and a handler of the atomic protocol models are single steps.
  In `DevicePairing` and `PairingRaces` the commands of concurrent handlers may also interleave, in
  `TokenRaces` the replay check, the parsing and the rotation of concurrent refreshes (each of them one
  step), and in `SyncEngine` the parts of a file's sync between two awaits.
- Tables are maps from ids to rows; a query that may return several rows returns any of them, and rows
  come in any order unless the query sorts them. Fresh identifiers have not been used before.
- A failing rename or commit is a parameter of the upload transaction; other file system calls succeed.
- Access checks of the file store are done by the callers of its transactions: `Workspace` has them, with
  the grants a caller holds as sets. `file_versions.file_id` cascades on delete
  (`backend-go/migrations/007_file_versions.sql`:19), `files.folder_id` is set to null
  (`backend-go/migrations/001_initial.sql`:64).
- Local paths are lists of names. The sync engine's sorts are any orders in which a path comes before
  (or, descending, after) everything below it. Over a whole sync the folder does not change.
- Times are seconds, or milliseconds where Redis counts them.

## What turned out not to hold

Each of these is proved with the exact condition under which the code does behave, and with an input for
which it does not. For the triangle inequality the exact condition is on the middle string; for three
given strings there is a sufficient one.

- Purging takes a trashed file's bytes off the account a second time: the account stays exact only if
  those bytes are zero or nothing else is charged (`QuotaLedger.PurgeLedger`, `PurgeBreaksLedger`).
- A move to another owner leaves the bytes of old versions charged to the old one (`QuotaLedger.MoveLedger`,
  `MoveBreaksLedger`).
- A file does not always belong to the owner of its folder: a collaborator who creates one by its hash in a
  shared folder owns it. Over any run such strays come about in no other way (`SharedFolders.HashStrays`,
  `EveryStrayWasMade`). Trashing and restoring the folder miss exactly such files, a purge puts them to
  their owner's root, and a move of the folder to a third owner takes them along but leaves their bytes
  behind (`TrashMisses`, `RestoreMisses`, `PurgeMisses`, `MoveMisses`, `QuotaLedger.FoldersLedger`,
  `CollaboratorMakesStray`, `MoveStrandsStray`).
- Deleting an account cascades to the versions its user made of other people's files without releasing
  their blobs (`BlobStore.AccountCascade`, `CollaboratorStrandsBlob`).
- The name of a copy is meant not to collide, but only one suffix is tried: the name is free if and only if
  the plain or the suffixed one is. Copying a file next to itself twice always gives two files of one name
  (`StoreTransactions.CopyIsAloneExactly`, `SecondCopyCollides`, `CopyBesideCopy`; for folders
  `FolderCopy.RootIsAloneExactly`, `CopyBesideCopy`).
- A folder restored on its own under a trashed parent is missed by a copy of the folders above; a live
  file in it makes the copy fail as a whole (`FolderCopy.CopyIsComplete`, `StrandedFolder`, `Drive.CopyFolderInto`).
- Restoring a folder after trashing it also brings back what had been trashed below it before
  (`Workspace.RestoreUndoesTrash`, `TrashedFileComesBack`).
- Each token pair of a pairing code goes out at most once, but a code may hand out several pairs when
  handlers interleave: without further approvals, as many as are stored or as approvals passed their check
  and have not written yet, no fewer and no more (`PairingRaces.OutstandingIsExact`, `AtMostOneExactly`).
  Overlapping approvals and overlapping claims lead there, and an approval that reads before a denial lets
  a denied code deliver (`OverlappingApprovals`, `OverlappingClaims`, `DeniedDeliversExactly`,
  `DeniedCodeDelivers`, `DevicePairing.InterleavedApprovalsDeliverTwice`).
- A refresh token is rotated once when refreshes run one at a time, but as often as one likes when they
  overlap: once it is spent, exactly the refreshes that had passed their checks can rotate it again. One of
  these also brings a revoked family back to life (`TokenRaces.SpentIsExact`, `LastRotationExactly`,
  `RotatedTwice`, `FamilyDeadExactly`, `LogoutMissesRefresh`).
- The rename of a folder in the mapping table loses an entry unless each moved key, in its turn, finds its
  new place free. A folder matched to its own old path drops out with everything below it, and one matched
  to a folder above it overwrites that folder's entry (`RenameRemap.ClashLosesEntries`, `SamePathErases`,
  `UpwardOverwrites`, `SyncEngine.RenameOutcome`, `RenameLosesAnEntry`).
- A path below a folder that cannot be read looks deleted to the sweep (`SyncEngine.StaleMeansUnreached`,
  `UnreadableFolderSwept`).
- The edit distance is not a metric (`EditDistance.TriangleInequalityFails`). The triangle inequality holds
  through a string b for all other strings if and only if b repeats one character
  (`EditComposition.BetweenExactlyWhenUniform`); for given strings it holds when neither leg has two
  different neighbours to swap, and always up to a factor of two (`EditComposition.Triangle`).
- `parseByteRange` departs from section 14.1.2 of RFC 9110 on suffixes of zero bytes, on positions from
  2^63 on, on reversed ranges that start beyond the end, and on empty files; it takes signs before a
  position and blanks around it, which the standard does not have, and knows the unit in lower case only.
  The model follows the code; for which headers the two agree is `ByteRange.HeaderForms` (for two digit
  strings `RangeForms`), and `RangesMisread` has inputs that tell them apart.
- The bounds test of a range read adds in 64 bits: past 2^63 every range passes it
  (`ChunkStore.BoundsAgree`, `BoundsWrap`). No accepted `Range` header leads there (`ByteRange.OkIsInBounds`).
- A blob cut short between two frames reads as a shorter file without an error; any other cut is reported
  (`ChunkStore.CutBlobReads`).
- Splitting a migration, terminating the statements and splitting again changes the last statement when
  the text ends inside a literal (`SqlSplitter.SplitIsStable`, `OpenLiteralIsUnstable`).

## Model

| member | source | states |
|---|---|---|
| ChunkStore.EncryptStream | backend-go/internal/storage/crypto.go:106-145 | what the write loop leaves is the magic followed by the frames of the input in order, and the returned size is that of the input |
| ChunkStore.WriteSealedChunk | backend-go/internal/storage/crypto.go:147-167 | one chunk is appended as length prefix, nonce, ciphertext and tag |
| ChunkStore.DecryptFileToWriter | backend-go/internal/storage/crypto.go:169-225 | the full reader writes every chunk that opens and stops with an error at the first that does not |
| ChunkStore.DecryptUndoesEncrypt | backend-go/internal/storage/crypto.go:106-225 | for every plaintext and chunk size, reading back what was written gives the plaintext |
| ChunkStore.CutBlobReads | backend-go/internal/storage/crypto.go:169-225 | for every plaintext, chunk size and cut: of a blob cut short the full reader writes the whole chunks that are left, and reports an error if and only if the cut is not between two frames |
| ChunkStore.EncryptedSize | backend-go/internal/storage/crypto.go:227-243 | the encrypted file has exactly the size the range check expects |
| ChunkStore.Le32RoundTrip | backend-go/internal/storage/crypto.go:147-167 | the 32-bit length prefix reads back |
| ChunkStore.SeekParts | backend-go/internal/storage/crypto.go:303-309 | the quotient and remainder by the chunk size split the start into whole chunks and a rest, and the seek lands after that many frames |
| ChunkStore.DecryptRangeToWriter | backend-go/internal/storage/crypto.go:262-353 | rejects a range out of bounds as the 64-bit sum has it, then an unexpected size or magic, and otherwise writes what its chunk loop yields from the 64-bit seek position |
| ChunkStore.BoundsAgree | backend-go/internal/storage/crypto.go:262-265 | the bounds test means what it says if and only if the end of the range fits in 64 bits |
| ChunkStore.BoundsWrap | backend-go/internal/storage/crypto.go:262-265 | a range that passes for a file of any size |
| ChunkStore.FitsIn64 | backend-go/internal/storage/crypto.go:262-353 | within bounds, on a file of the right size, no sum or product wraps around |
| ChunkStore.RangeIsSliceOfWhole | backend-go/internal/storage/crypto.go:262-353 | for every plaintext, chunk size and in-bounds range, the seeking reader writes exactly that slice of what the full reader writes |
| ByteRange.ParseDecimal | backend-go/internal/app/storage_helpers.go:641-690 | a decimal numeral below 2^63 parses to its value |
| ByteRange.ParseNegative | backend-go/internal/app/storage_helpers.go:662-685 | a minus sign gives the negative number, down to -2^63 |
| ByteRange.DigitCharacters | backend-go/internal/app/storage_helpers.go:662-685 | the digits are the ten decimal ones |
| Text.TrimTakesBlanks | backend-go/internal/app/storage_helpers.go:646-657 | trimming takes the blanks off both ends, all of them and nothing else |
| Text.SpaceCharacters | backend-go/internal/app/storage_helpers.go:646-657 | which characters are blanks |
| ByteRange.OkIsInBounds | backend-go/internal/app/storage_helpers.go:641-690 | every accepted range is a non-empty range of the representation |
| ByteRange.RangeForms | backend-go/internal/app/storage_helpers.go:641-690 | for all digit strings, leading zeros and missing positions included, and all sizes, empty files included: when a range reads as section 14.1.2 of RFC 9110 has it, and what it reads as otherwise |
| ByteRange.HeaderForms | backend-go/internal/app/storage_helpers.go:641-690 | for every header string and every size: the program reads what section 14.1.2 of RFC 9110 has, several ranges and other units ignored, if and only if a range spelt in lower case meets the condition of `RangeForms`, one in another spelling asks for nothing, and anything else is not taken for a range |
| ByteRange.PartsOfJoined | backend-go/internal/app/storage_helpers.go:641-690 | the standard's grammar: a unit without `=` and two digit strings, not both missing, put together are taken apart into the same |
| ByteRange.PartsJoin | backend-go/internal/app/storage_helpers.go:641-690 | and what is taken apart was put together so, for every header |
| ByteRange.SignIsAccepted | backend-go/internal/app/storage_helpers.go:668-685 | a plus sign before the last position makes no difference to the program, for all positions; the standard ignores such a range |
| ByteRange.SpellingMatters | backend-go/internal/app/storage_helpers.go:641-646 | a unit with a capital letter makes every range the whole; the standard does not care |
| ByteRange.RangesMisread | backend-go/internal/app/storage_helpers.go:641-690 | inputs on which the two differ: a suffix of no bytes, a position of 2^63, a reversed range beyond the end, an empty file, a sign, a capital letter |
| ByteRange.ServeDecryptedBlob | backend-go/internal/app/storage_helpers.go:591-639 | a 206 answer carries exactly the advertised range and length of the plaintext, a 416 nothing, a 200 the whole |
| BlobRefs.NamedIffCounted | backend-go/internal/app/blob_refs.go:9-56 | a path is counted exactly when some file or version row names it |
| BlobRefs.BalancedIsRecount | backend-go/internal/app/blob_refs.go:9-56 | when no release is outstanding, the counter table is the count of the rows, with no zero entries |
| BlobRefs.InsertFileBalances | backend-go/internal/app/blob_refs.go:9-16 | a new file row and one acquired reference keep the counts exact |
| BlobRefs.RepointBalances | backend-go/internal/app/storage_helpers.go:431-449 | turning a row to another blob leaves exactly its old path to be released |
| BlobRefs.ReleaseBalances | backend-go/internal/app/blob_refs.go:18-56 | one release takes one outstanding path off, and its counter is there |
| BlobRefs.DropBalances | backend-go/internal/app/delete_helpers.go:153-183 | deleting rows leaves exactly the paths they named to be released |
| BlobStore.SettledInv | backend-go/internal/app/blob_refs.go:18-56 | after any change of rows every named blob is on disk under its key, with its size and hash |
| BlobStore.RemovedOnlyWhenUnnamed | backend-go/internal/app/delete_helpers.go:165-190 | a blob leaves the disk only when no row names it |
| BlobStore.UploadKeepsInv | backend-go/internal/app/storage_helpers.go:236-481 | the three upload cases keep counts, disk, foreign keys and version numbers consistent |
| BlobStore.CopyKeepsInv | backend-go/internal/app/handlers_copy.go:62-112 | rows that share blobs in use keep the store consistent |
| BlobStore.MoveKeepsInv | backend-go/internal/app/move_helpers.go:26-72 | so does a move to another owner |
| BlobStore.DropKeepsInv | backend-go/internal/app/delete_helpers.go:126-192 | so does deleting file rows with their versions |
| BlobStore.DropTwice | backend-go/internal/app/handlers_trash.go:144-165 | purging some files and then others leaves the same store as purging all of them |
| BlobStore.PurgeTwice | backend-go/internal/app/handlers_trash.go:144-165 | and the account gets the same back |
| BlobStore.AccountCascade | backend-go/internal/app/handlers_auth.go:404-411 | after the account row goes, the counts are exact if and only if the user made no version of a remaining file |
| BlobStore.CollaboratorStrandsBlob | backend-go/internal/app/handlers_auth.go:404-411 | a consistent store in which deleting a collaborator's account leaves a counted blob that no row names |
| StoreTransactions.Store.AcquireBlobRef | backend-go/internal/app/blob_refs.go:11-16 | the counter of the path goes up by one, from nothing if need be, and no other changes |
| StoreTransactions.Store.ReleaseBlobRef | backend-go/internal/app/blob_refs.go:29-56 | the counter goes down by one and disappears at zero, which is what it reports |
| StoreTransactions.Store.ReserveQuota | backend-go/internal/app/quota.go:25-51 | succeeds exactly when the account exists and the bytes fit, and charges them only then |
| StoreTransactions.Store.ReleaseQuota | backend-go/internal/app/quota.go:55-61 | credits the bytes with a floor of zero |
| StoreTransactions.Store.ReleaseAll | backend-go/internal/app/storage_helpers.go:451-464 | releasing the listed paths makes the counts exact and lists exactly the paths nothing names any more |
| StoreTransactions.Store.UndoMoves | backend-go/internal/app/storage_helpers.go:262-274 | the moves are reversed, last one first |
| StoreTransactions.UndoRestores | backend-go/internal/app/storage_helpers.go:262-274 | undoing the one move of an upload gives back the disk as it was |
| StoreTransactions.TailIsExcess | backend-go/internal/app/storage_helpers.go:487-531 | past the cap of a list sorted by falling version number lie exactly the versions with that many newer ones |
| StoreTransactions.Store.PruneVersions | backend-go/internal/app/storage_helpers.go:487-531 | exactly the versions beyond the newest ones lose their rows, and their paths and total size are returned |
| StoreTransactions.NextVersionNo | backend-go/internal/app/storage_helpers.go:388-395 | the next number is one above the highest of the file |
| StoreTransactions.Store.InsertNew | backend-go/internal/app/storage_helpers.go:344-385 | without a same-name file: a new row on a donor's blob or on the uploaded one, its reference counted, the move listed for undo |
| StoreTransactions.Store.ReplaceContent | backend-go/internal/app/storage_helpers.go:387-469 | with one: the old bytes become a version, the row turns to the new ones, the oldest versions go, and exactly the freed paths are listed |
| StoreTransactions.ExcessIsOldest | backend-go/internal/app/storage_helpers.go:487-531 | pruning to a limit leaves that many versions of the file, or all if there are fewer, each newer than every one that went, and all versions of other files |
| StoreTransactions.UploadKeepsNewest | backend-go/internal/app/storage_helpers.go:387-469 | an upload over a file adds its old content, under the next number and the uploader's name, and then prunes to the limit; any other upload changes no version |
| StoreTransactions.Store.CommitUpload | backend-go/internal/app/storage_helpers.go:236-481 | which outcome an upload has, in every case and under every fault; the store it leaves; of the versions of a replaced file as many as the limit says, ten without one, and the newest; and that a failed one leaves rows, counts, quota and named blobs as they were; whether the folder is live is looked up in `Workspace.Space.Upload` |
| StoreTransactions.Store.CopyRows | backend-go/internal/app/handlers_copy.go:81-112 | the copies are charged as a whole, inserted and counted, or nothing happens |
| StoreTransactions.Store.CopyFile | backend-go/internal/app/handlers_copy.go:62-112 | a live source that fits is copied onto the same blob, under its plain name or, if that is taken, its suffixed one; otherwise nothing changes |
| StoreTransactions.CopyIsAloneExactly | backend-go/internal/app/handlers_copy.go:28-57 | the copy ends up without a namesake if and only if its plain name or its suffixed one was free |
| StoreTransactions.CopySuffixForms | backend-go/internal/app/handlers_copy.go:28-38 | the suffix goes before the last dot, or to the end of a name without one, starting with its only one or ending with one |
| StoreTransactions.SecondCopyCollides | backend-go/internal/app/handlers_copy.go:28-57 | a second copy of a file next to itself always has a namesake |
| StoreTransactions.CopyBesideCopy | backend-go/internal/app/handlers_copy.go:28-57 | two files beside which a third copy takes a name in use |
| StoreTransactions.Store.CopyFolderFiles | backend-go/internal/app/handlers_copy.go:164-200 | the sizes are added up and reserved before any file row of a folder copy is written |
| StoreTransactions.Store.CreateFromHash | backend-go/internal/app/handlers_dedup.go:72-138 | not found exactly when no live file of the caller records the hash; otherwise, if it fits, a new row on the blob of one that does |
| StoreTransactions.Store.TrashFile | backend-go/internal/app/handlers_files.go:527-559 | a live file is marked and its bytes are credited to its owner |
| StoreTransactions.Store.RestoreFile | backend-go/internal/app/handlers_trash.go:48-90 | a trashed file of the caller comes back if its bytes fit again |
| StoreTransactions.Store.TrashFolderFiles | backend-go/internal/app/delete_helpers.go:64-85 | exactly the live files of the folders are marked and their bytes credited |
| StoreTransactions.Store.RestoreFolderFiles | backend-go/internal/app/delete_helpers.go:99-123 | exactly the trashed files of the folders come back, if the bytes of all of them fit |
| StoreTransactions.Store.MoveFile | backend-go/internal/app/move_helpers.go:26-72 | exactly when the file is live and fits; a move within one owner changes the folder alone; across owners the row, and its bytes, change accounts |
| StoreTransactions.Store.ReassignFolderFiles | backend-go/internal/app/move_helpers.go:115-140 | every file of the folders changes owner, and the live bytes the old owner had there change accounts, or nothing happens |
| BlobStore.FoldersMovedIsMove | backend-go/internal/app/move_helpers.go:115-140 | where folders hold their owner's files only, that is the move of those files with exactly their live bytes |
| StoreTransactions.Store.ForgetFolders | backend-go/migrations/001_initial.sql:64 | when folder rows go, the files in them keep everything but their folder |
| StoreTransactions.Store.DropRows | backend-go/internal/app/delete_helpers.go:134-190 | the rows go with their versions, exactly the unnamed blobs are removed, and the bytes are added up |
| StoreTransactions.Store.PurgeFile | backend-go/internal/app/delete_helpers.go:126-192 | only a trashed file of the caller is purged, with all its versions |
| StoreTransactions.Store.PurgeFolderFiles | backend-go/internal/app/delete_helpers.go:194-299 | every file of the folders is purged, trashed or not |
| StoreTransactions.Store.EmptyTrash | backend-go/internal/app/handlers_trash.go:144-165 | purging the trashed files one by one leaves exactly the store, and the account, that one joint purge of them leaves |
| StoreTransactions.Store.DeleteUserResources | backend-go/internal/app/delete_helpers.go:301-404 | all files of the user go, shared blobs stay, and no account is touched |
| PlainStore.SettledView | backend-go/internal/app/delete_helpers.go:165-190 | removing unnamed blobs is invisible to every reader |
| PlainStore.UploadRefines | backend-go/internal/app/storage_helpers.go:236-481 | an upload with deduplication, versioning and pruning does to what rows read exactly what it would do to private copies |
| PlainStore.CopyRefines | backend-go/internal/app/handlers_copy.go:62-263 | sharing a blob reads like copying the bytes |
| PlainStore.DropRefines | backend-go/internal/app/delete_helpers.go:126-404 | deleting rows removes them and their versions and changes no other row |
| PlainStore.StepKeepsInv | backend-go/internal/app/blob_refs.go:9-56 | every operation keeps the counts equal to the rows and every named blob on disk |
| PlainStore.StepRefines | backend-go/internal/app/storage_helpers.go:236-481 | every operation is the same operation on private copies |
| PlainStore.StepIsAllowed | backend-go/internal/app/storage_helpers.go:276-395 | the same-name file and the version number of an upload are what the store of private copies itself would find |
| PlainStore.RunRefines | backend-go/internal/app/storage_helpers.go:236-481 | over any run of uploads, failed uploads, copies, trashings, restores, moves of files and of folders, purges and user deletions, each row reads what a store of private copies would hold after steps of its own |
| PlainStore.OtherRowsReadTheSame | backend-go/internal/app/storage_helpers.go:397-469 | a step changes what a file reads only by uploading over it, and never what a version reads |
| PlainStore.EveryRowReads | backend-go/internal/app/storage_helpers.go:397-469 | every row can be read, in its recorded size |
| QuotaLedger.TrashLedger | backend-go/internal/app/handlers_files.go:527-559 | trashing keeps the account exact and the floor is not needed |
| QuotaLedger.RestoreLedger | backend-go/internal/app/handlers_trash.go:56-90 | so does restoring |
| QuotaLedger.CopyLedger | backend-go/internal/app/handlers_copy.go:81-112 | so does copying |
| QuotaLedger.VersionLedger | backend-go/internal/app/storage_helpers.go:387-469 | an upload over a file pays for the new bytes, gets the pruned ones back, and never asks for more than the account holds |
| QuotaLedger.UploadLedger | backend-go/internal/app/storage_helpers.go:316-469 | all upload cases keep every account exact |
| QuotaLedger.PurgeLedger | backend-go/internal/app/delete_helpers.go:158-163 | a purge keeps the account exact if and only if the purged files had no trashed bytes or nothing else is charged |
| QuotaLedger.PurgeBreaksLedger | backend-go/internal/app/delete_helpers.go:158-163 | a consistent store of two one-byte files, one trashed: purging it leaves the account at zero |
| QuotaLedger.MoveLedger | backend-go/internal/app/move_helpers.go:41-72 | a move to another owner keeps both accounts exact if and only if the files have no version bytes |
| QuotaLedger.MoveBreaksLedger | backend-go/internal/app/move_helpers.go:41-72 | a consistent store with one versioned file: moving it leaves the version's byte on the old account |
| QuotaLedger.MoveConserves | backend-go/internal/app/move_helpers.go:41-72 | it conserves the sum of the two accounts and of what should be charged to them |
| QuotaLedger.FoldersLedger | backend-go/internal/app/move_helpers.go:115-140 | folders that change owner with all files in them keep every account exact if and only if they hold no live bytes of a third owner and no version bytes of files other than the new owner's |
| QuotaLedger.DeleteUserLedger | backend-go/internal/app/delete_helpers.go:301-404 | every other account stays exact, and all do once the user's is gone |
| QuotaLedger.StepLedger | backend-go/internal/app/quota.go:20-61 | for every operation, whether it keeps all accounts exact |
| QuotaLedger.StepWithinQuota | backend-go/internal/app/quota.go:20-61 | no operation takes an account over its quota |
| QuotaLedger.RunLedger | backend-go/internal/app/quota.go:20-61 | over any run of exact operations each account is its live files plus all versions of its files, within quota |
| FolderForest.AncestorWalkEnds | backend-go/internal/app/handlers_folders.go:367-385 | in a forest every walk towards the root ends |
| FolderForest.SubtreeOwner | backend-go/internal/app/delete_helpers.go:12-35 | everything below a folder belongs to its owner |
| FolderForest.CollectFolderTree | backend-go/internal/app/delete_helpers.go:12-35 | the owner-restricted recursive walk ends and finds exactly the full subtree |
| FolderForest.FolderDepth | backend-go/internal/app/handlers_folders.go:359-385 | the depth query answers the nesting, up to its bound |
| FolderForest.CreateKeepsForest | backend-go/internal/app/handlers_folders.go:151-206 | a new folder under a parent of its owner keeps the forest |
| FolderForest.MoveKeepsForest | backend-go/internal/app/handlers_folders.go:437-573 | so does moving a folder anywhere outside its own subtree, to the same or another owner |
| FolderForest.PurgeOrphansNobody | backend-go/internal/app/delete_helpers.go:263-272 | purging a subtree changes no other row, although the foreign key would set parents to null |
| FolderForest.ApplyKeepsForest | backend-go/internal/app/handlers_folders.go:151-573 | every request keeps the folders acyclic and children with their parent's owner |
| FolderForest.SameOwnerMove | backend-go/internal/app/move_helpers.go:78-90 | within one owner, moving the subtree is one parent update |
| FolderForest.RegraftMovesRows | backend-go/internal/app/move_helpers.go:74-142 | for all owners and destinations: names, flags and all other parents stay, exactly the subtree changes owner, and it is the same subtree afterwards |
| FolderForest.SubtreeMovesAlong | backend-go/internal/app/move_helpers.go:131-142 | whatever becomes of one folder's parent, what lies below it is what lay below it |
| FolderForest.AccessIsOpen | backend-go/internal/app/access.go:55-82 | access is given exactly to the owner of a live folder and to holders of a grant on it, and names the owner |
| FolderForest.DeleteUserOrphansNobody | backend-go/internal/app/delete_helpers.go:301-404 | deleting the folders of a user leaves every other row as it is |
| FolderForest.FolderStore.CreateFolder | backend-go/internal/app/handlers_folders.go:151-206 | which answer it gives, in the order of its checks; a success adds exactly that folder, for the owner of its parent |
| FolderForest.FolderStore.MoveFolder | backend-go/internal/app/handlers_folders.go:437-573 | which answer it gives, in the order of its checks, the quota as `Workspace` decides it; a success, to any owner, changes row by row only the parent of the moved folder and the owner of its subtree, which stays its subtree |
| FolderForest.FolderStore.DeleteFolder | backend-go/internal/app/delete_helpers.go:48-63 | done exactly when the folder is live and the caller owns it or holds a grant on it; marks exactly the subtree |
| FolderForest.FolderStore.RestoreFolder | backend-go/internal/app/delete_helpers.go:88-117 | unmarks exactly the subtree of a trashed folder of the caller, if its files fit, as `Workspace` decides it |
| FolderForest.FolderStore.PurgeFolder | backend-go/internal/app/delete_helpers.go:194-272 | removes exactly the subtree of a trashed folder of the caller |
| FolderForest.FolderStore.DeleteUserFolders | backend-go/internal/app/delete_helpers.go:301-404 | exactly the folders of the user go, every other row is as it was, and what is left is a forest |
| FolderCopy.BuildChildren | backend-go/internal/app/handlers_copy.go:213-218 | whatever order the map is read in, each parent lists each of its folders exactly once |
| FolderCopy.CopyFolders | backend-go/internal/app/handlers_copy.go:219-243 | the queue loop ends, inserts each live folder of the subtree exactly once and after its parent, so that no foreign key fails |
| FolderCopy.CopyFiles | backend-go/internal/app/handlers_copy.go:244-258 | the file rows go in if and only if each one's folder was inserted |
| FolderCopy.Drive.CopyFolderInto | backend-go/internal/app/handlers_copy.go:119-263 | exactly when a copy that fits commits, and that it adds the copies of the live tree and its files and nothing else, or nothing; `Workspace` decides what fits |
| FolderCopy.CopyIsComplete | backend-go/internal/app/handlers_copy.go:147-243 | the copy reaches every live folder of the subtree if and only if none of them hangs off a trashed one |
| FolderCopy.StrandedFolder | backend-go/internal/app/handlers_copy.go:147-243 | a live folder under a trashed one is missed |
| FolderCopy.RootIsAloneExactly | backend-go/internal/app/handlers_copy.go:266-283 | the new root ends up without a namesake if and only if its plain name or its suffixed one was free |
| FolderCopy.CopyBesideCopy | backend-go/internal/app/handlers_copy.go:266-283 | two folders beside which a third copy takes a name in use |
| FolderCopy.SubtreeOfCopy | backend-go/internal/app/handlers_copy.go:203-243 | below the new root lie exactly the images of the live tree, wherever the destination is, even inside the source; old rows are as they were |
| FolderCopy.CopiedRow | backend-go/internal/app/handlers_copy.go:219-243 | each image has the name of its folder and hangs under the image of its parent |
| FolderCopy.FilesOfCopy | backend-go/internal/app/handlers_copy.go:244-258 | the files below the new root are the copies of the live files below the old one, and no others |
| FolderCopy.CopiedFileRow | backend-go/internal/app/handlers_copy.go:244-258 | each copied file sits in the image of its folder with the same name and blob |
| FolderCopy.CopyKeepsForest | backend-go/internal/app/handlers_copy.go:119-263 | a copy keeps the forest, wherever it goes |
| FolderCopy.Run | backend-go/internal/app/handlers_folders.go:151-573 | every run of folder requests and copies ends in a forest |
| FolderCopy.EveryRun | backend-go/internal/app/delete_helpers.go:12-35 | after any run every ancestor walk ends and every subtree has one owner |
| Workspace.Space.CreateFolder | backend-go/internal/app/handlers_folders.go:151-206 | which answer it gives, in the order of its checks; both tables stay consistent: each file's folder exists, each folder's owner has an account |
| Workspace.Space.DeleteFolder | backend-go/internal/app/delete_helpers.go:48-86 | exactly when the folder is live and the caller owns it or holds a grant; for any files in it: marks the folders at and below it and exactly the live files of its owner in them, and credits their bytes; otherwise nothing changes |
| Workspace.Space.RestoreFolder | backend-go/internal/app/delete_helpers.go:88-124 | exactly when the folder is in the trash and the owner's trashed files below fit again, those folders and files come back |
| Workspace.Space.PurgeFolder | backend-go/internal/app/delete_helpers.go:194-299 | the folders and the owner's files at or below go, files of others in them lose their folder, and nothing else changes but the released blobs and the account |
| Workspace.Space.MoveFolder | backend-go/internal/app/move_helpers.go:74-140 | which answer it gives: a stranger to the folder or the destination is refused, and so is a move whose owner's live bytes do not fit; a success changes the folder rows as above and moves every file in them, whoever had it |
| Workspace.Space.DeleteUser | backend-go/internal/app/delete_helpers.go:301-404 | the user's folders and files go, files of others in those folders lose their folder, and both tables stay consistent |
| Workspace.Space.CopyFolder | backend-go/internal/app/handlers_copy.go:119-263 | exactly when the caller may see the source and write at the destination, each live file's folder is copied and the bytes of the copied files fit; the file rows inserted and charged are those of the folder copy |
| Workspace.Space.Upload | backend-go/internal/app/storage_helpers.go:122-234 | exactly when it succeeds: the folder is absent, or live and the caller's own or granted; the bytes are there already or fit; and no fault strikes. A success leaves a live row of that name, folder and owner, named in the answer, that reads the uploaded bytes; which error a failure gives |
| Workspace.Space.CopyFile | backend-go/internal/app/handlers_copy.go:62-112 | exactly when the caller may read the file, may write the folder and its owner can pay, the copy belongs to that owner; which error otherwise |
| Workspace.Space.MoveFile | backend-go/internal/app/handlers_files.go:376-500 | exactly when the caller may use the file, may write the folder and its owner can pay, the file comes to belong to that owner; which error otherwise |
| Workspace.Space.CreateFromHash | backend-go/internal/app/handlers_dedup.go:44-138 | which error it gives: a malformed request, a folder that is not open to the caller, no live file of the caller with that hash, no room; a success leaves a live row of the caller, whoever owns the folder, that records the hash and reads bytes with that hash |
| Workspace.RestoreUndoesTrash | backend-go/internal/app/delete_helpers.go:48-124 | restoring a folder right after trashing it gives back both tables if and only if nothing in it was in the trash before; then the account too |
| Workspace.TrashedFileComesBack | backend-go/internal/app/delete_helpers.go:48-124 | a consistent store in which a file trashed on its own comes back with its folder |
| RowEffects.TrashByRow | backend-go/internal/app/delete_helpers.go:48-86 | row by row: exactly the owner's live files at or below the folder are marked, no other column changes, and only the owner's account does, by their bytes |
| RowEffects.RestoreByRow | backend-go/internal/app/delete_helpers.go:88-124 | row by row: exactly the owner's trashed files there are unmarked and charged |
| RowEffects.PurgeByRow | backend-go/internal/app/delete_helpers.go:194-299 | row by row: exactly the owner's files there go with their versions and the blobs nothing names any more, other files there lose their folder, and the account gets all those bytes back |
| RowEffects.DeleteUserByRow | backend-go/internal/app/delete_helpers.go:301-404 | row by row: the same for the files of a user, with no account changed |
| RowEffects.MoveByRow | backend-go/internal/app/move_helpers.go:115-140 | row by row: every file there gets the new owner and keeps all else; exactly the old owner's live bytes change accounts |
| RowEffects.FileMoveByRow | backend-go/internal/app/move_helpers.go:26-72 | row by row: one file changes folder and, with its bytes, owner |
| RowEffects.CopyByRow | backend-go/internal/app/handlers_copy.go:62-112 | row by row: one new live row on the same blob, under the plain name exactly if no live file there has it |
| RowEffects.HashByRow | backend-go/internal/app/handlers_dedup.go:84-138 | row by row: one new live row of the caller on the donor's blob |
| SharedFolders.HashStrays | backend-go/internal/app/handlers_dedup.go:44-138 | creating a file by its hash puts a file into another owner's folder if and only if the folder is another owner's, and changes no other file's standing |
| SharedFolders.MoveFileStrays | backend-go/internal/app/move_helpers.go:26-72 | a file that is moved is in its owner's folder afterwards |
| SharedFolders.CopyStrays | backend-go/internal/app/handlers_copy.go:244-258 | copies are in their owner's folders, wherever the originals are |
| SharedFolders.PurgeStrays | backend-go/internal/app/delete_helpers.go:194-299 | purging a folder leaves exactly the strays elsewhere |
| SharedFolders.MoveStrays | backend-go/internal/app/move_helpers.go:115-140 | so does moving one to another owner; within one owner nothing changes |
| SharedFolders.DeleteUserStrays | backend-go/internal/app/delete_helpers.go:301-404 | deleting a user leaves exactly the strays of others in folders of others |
| SharedFolders.CreateIsDeed | backend-go/internal/app/handlers_folders.go:151-206 | what the create handler lets through is a transaction of the run below, under the owner it finds, and has the same effect |
| SharedFolders.MoveIsDeed | backend-go/internal/app/handlers_folders.go:437-573 | so is what the move handler lets through |
| SharedFolders.CopyIsDeed | backend-go/internal/app/handlers_copy.go:119-263 | so is a folder copy that went through, with the same effect on both tables |
| SharedFolders.FlagsAreDeeds | backend-go/internal/app/delete_helpers.go:48-124 | so are trashing and restoring a folder |
| SharedFolders.UploadIsDeed | backend-go/internal/app/storage_helpers.go:122-234 | so is an upload into a folder that is open to the caller: the transaction finds it live and of the same owner |
| SharedFolders.RemovalsAreDeeds | backend-go/internal/app/delete_helpers.go:194-404 | so are purging a folder and deleting a user |
| SharedFolders.FileDeeds | backend-go/internal/app/handlers_copy.go:62-112 | so are copying, moving and creating a file by its hash in a folder that is open to the caller |
| SharedFolders.DeedKeepsGood | backend-go/internal/app/delete_helpers.go:48-404 | every transaction on either table keeps the forest, each file's folder and each folder owner's account |
| SharedFolders.DeedStrays | backend-go/internal/app/access.go:55-82 | no transaction but a creation by hash makes a stray, and that one only itself |
| SharedFolders.EveryStrayWasMade | backend-go/internal/app/handlers_dedup.go:44-138 | over any run of folder and file transactions every file in another owner's folder was created there by its hash |
| SharedFolders.TrashMisses | backend-go/internal/app/delete_helpers.go:48-86 | after a trashing the live files left at or below the folder are exactly the strays among them |
| SharedFolders.RestoreMisses | backend-go/internal/app/delete_helpers.go:88-124 | after a restore the trashed files left there are exactly the strays among them |
| SharedFolders.PurgeMisses | backend-go/internal/app/delete_helpers.go:194-299 | a purge leaves none of the files below and changes no other row if and only if there is no stray among them; a stray stays at its owner's root |
| SharedFolders.MoveMisses | backend-go/internal/app/move_helpers.go:115-140 | the live bytes below are those the old owner is credited for and those of the strays; without strays the move is that of exactly the files below |
| SharedFolders.CollaboratorMakesStray | backend-go/internal/app/handlers_dedup.go:44-138 | a consistent store in which a collaborator makes one, that trashing the folder leaves live and purging it changes |
| SharedFolders.MoveStrandsStray | backend-go/internal/app/move_helpers.go:115-140 | giving that folder to a third user breaks the books, which were exact |
| LocalTree.WalkDirectory | desktop/src/lib/sync-engine.ts:61-89 | the stack loop ends and lists every reachable folder and file exactly once |
| LocalTree.ScanIsAncestorClosed | desktop/src/lib/sync-engine.ts:61-89 | a listed path has all folders above it listed |
| LocalTree.MissedPaths | desktop/src/lib/sync-engine.ts:61-89 | a path on disk goes unlisted if and only if a name on the way is skipped or a folder above cannot be read |
| WorkerPool.StepKeepsInv | desktop/src/lib/sync-engine.ts:107-135 | every turn of any worker keeps each item handed out in one hand or finished, never both |
| WorkerPool.StepUsesATurn | desktop/src/lib/sync-engine.ts:107-135 | the pool stops after a number of turns fixed by its size |
| WorkerPool.AtMostWorkersInHand | desktop/src/lib/sync-engine.ts:128-133 | no more items are in hand than there are workers |
| WorkerPool.ParallelMap | desktop/src/lib/sync-engine.ts:107-135 | every interleaving runs each item exactly once and counts each failure |
| SyncState.AddFolderCore | desktop/src/lib/sync-engine.ts:834-847 | a created folder hangs under the remote folder of its parent path, and ids stay distinct |
| SyncState.AddFileCore | desktop/src/lib/sync-engine.ts:892-912 | so does an uploaded file, also when the server answers with an existing id |
| SyncState.UploadIsOwn | desktop/src/lib/sync-engine.ts:884-895 | an id the server reuses belongs to no other mapped path |
| SyncState.RemovalKeepsStanding | desktop/src/lib/sync-engine.ts:1105-1170 | deleting a mapped item, with everything below it on the server, takes along no item whose path and ancestors stay |
| SyncState.BelowTakesChildren | desktop/src/lib/sync-engine.ts:1134-1170 | with a deleted folder goes what hangs in it, and what hangs in that |
| SyncEngine.Engine.EnsureRemoteFolder | desktop/src/lib/sync-engine.ts:819-848 | the folder and exactly its unknown ancestors are created, top down |
| SyncEngine.Engine.SyncFile | desktop/src/lib/sync-engine.ts:852-913 | an unchanged file costs no call; any other is uploaded under its parent folder and mapped with its new signature, or reported; one that is gone, before or during the upload, loses its entry |
| SyncEngine.Engine.SyncDirectories | desktop/src/lib/sync-engine.ts:729-734 | every scanned folder is mapped, known folders keep their ids, the table stays linked, and exactly the unknown ones are created, with one call each |
| SyncEngine.Engine.SyncFiles | desktop/src/lib/sync-engine.ts:736-754 | with the looking, sending and storing of different files interleaved in any order, each file ends up current or reported, and no other entry changes; exactly the changed files are sent, with one call each, and exactly the failures are counted |
| SyncEngine.SendGoes | desktop/src/lib/sync-engine.ts:884-913 | an upload whose answer is still to be stored is, for every other file, as if it were stored |
| SyncEngine.Engine.RemoveDirectoryMapping | desktop/src/lib/sync-engine.ts:1134-1170 | exactly the mapped paths equal to the path or below it are removed, each with one call |
| SyncEngine.NextStale | desktop/src/lib/sync-engine.ts:781-796 | when a stale path's turn comes its entry is still there, and a stale folder has nothing left below it |
| SyncEngine.Engine.CleanUp | desktop/src/lib/sync-engine.ts:756-797 | the sweep is skipped exactly when more than half of the table is stale; otherwise it deletes each stale entry once, none else, takes the remote items unless the server refuses, with nothing but what hangs below them, and leaves a linked table |
| SyncEngine.StaleMeansUnreached | desktop/src/lib/sync-engine.ts:761-766 | what the sweep takes for deleted: everything the walk cannot reach as what it is mapped as |
| SyncEngine.UnreadableFolderSwept | desktop/src/lib/sync-engine.ts:756-797 | a linked table whose unchanged file below an unreadable folder is swept, within the limit on deletions |
| SyncEngine.Engine.SyncRoot | desktop/src/lib/sync-engine.ts:661-815 | from any linked table, in terms of that table and the disk: how many uploads fail; that the sweep is skipped exactly when more than half of what is then mapped is off the disk, so never when at most half of the mapped paths are; every entry it leaves; its calls, first one creation for each unknown folder, then one upload for each changed file, then one deletion for each path that is gone; and that the deleted items are gone. Without failures or a skipped sweep the table ends equal to the scan and each remote parent is that of the parent path; a second sync makes no call |
| SyncEngine.RemoveRemote | desktop/src/lib/sync-engine.ts:1105-1170 | one deletion takes the item unless the server refuses, takes only what hangs below it, and leaves every other remote item as it was |
| SyncEngine.EntriesAfterUploads | desktop/src/lib/sync-engine.ts:729-766 | after the uploads exactly the old paths, the folders and the files that could be uploaded are mapped, and exactly the paths off the disk are stale |
| SyncEngine.Engine.RenameFolder | desktop/src/lib/sync-engine.ts:1049-1101 | an accepted rename renames the remote folder and moves the keys one by one in the order of the table, for all paths; with nothing mapped at or under the new path the table is the old one under the new path, and linked |
| SyncEngine.RenameOutcome | desktop/src/lib/sync-engine.ts:1049-1101 | from any linked table: it keeps its size if and only if each moved key finds its place free, and is then rewritten; a folder matched to its own path drops out with everything below it; one matched to a folder above it costs that one its entry |
| SyncEngine.RenameLosesAnEntry | desktop/src/lib/sync-engine.ts:1077-1097 | a linked table of two folders that shrinks, for a clashing path and for an equal one |
| RenameRemap.RemapKeys | desktop/src/lib/sync-engine.ts:1077-1097 | the rewrite loop moves each key once, in whatever order the table lists them, for all pairs of paths |
| RenameRemap.RemapIsBijective | desktop/src/lib/sync-engine.ts:1077-1097 | without a clash every entry reappears unchanged under the new path in any order, none is lost, and no other key is touched |
| RenameRemap.ClashLosesEntries | desktop/src/lib/sync-engine.ts:1077-1097 | for all paths, equal and nested ones too, and every order: the table keeps its size if and only if each moved key finds its place free, and then nothing is lost or overwritten |
| RenameRemap.ApartIsUnclashed | desktop/src/lib/sync-engine.ts:1077-1097 | between paths that do not nest the order does not matter: no moved key may land on a mapped one |
| RenameRemap.SamePathErases | desktop/src/lib/sync-engine.ts:1092-1095 | between equal paths every moved entry is erased |
| RenameRemap.UpwardOverwrites | desktop/src/lib/sync-engine.ts:1077-1097 | a rename to a mapped path above loses an entry in every order |
| RenameRemap.SomeOrderWorks | desktop/src/lib/sync-engine.ts:1077-1097 | some order loses nothing if and only if every clash is with a key that moves away itself |
| RenameRemap.NothingUnderNewPath | desktop/src/lib/sync-engine.ts:1077-1097 | nothing mapped at or under the new path means no clash |
| RenameRemap.RenameKeepsLinked | desktop/src/lib/sync-engine.ts:1062-1097 | table and remote tree agree again after the rename |
| SessionTokens.Manager.IssuePair | backend-go/internal/auth/token.go:53-91 | an access and a refresh token of one family, each with its own identifier and lifetime, recorded as signed |
| SessionTokens.Manager.Parse | backend-go/internal/auth/token.go:112-155 | accepts exactly unexpired signed tokens that neither their id nor their family has blacklisted |
| SessionTokens.Manager.HandleRefresh | backend-go/internal/app/handlers_auth.go:233-288 | a rotation spends the token, issues one pair in its family and answers with its refresh token; a replay revokes the family |
| SessionTokens.NextCanBeRotated | backend-go/internal/app/handlers_auth.go:278-288 | the answered token can itself be rotated at any later time until it expires |
| SessionTokens.RevokingSparesOthers | backend-go/internal/auth/token.go:196-223 | revoking one token changes nothing for a token that shares no identifier with it |
| SessionTokens.FamilySparesOthers | backend-go/internal/auth/token.go:156-165 | revoking a family changes nothing for tokens of other families |
| SessionTokens.Manager.HandleLogout | backend-go/internal/app/handlers_auth.go:290-310 | the tokens presented are revoked |
| SessionTokens.RunIsBounded | backend-go/internal/config/config.go:189-198 | in every run each token expires before a blacklisting made now would |
| SessionTokens.RevokedFamilyStaysDead | backend-go/internal/auth/token.go:112-165 | once a family is revoked no token of it is accepted or issued in any later step, although the blacklist entry expires |
| SessionTokens.RotatedAtMostOnce | backend-go/internal/app/handlers_auth.go:233-288 | over any run of refreshes that each run as one step, each refresh token is rotated at most once |
| SessionTokens.ReplayKillsFamily | backend-go/internal/app/handlers_auth.go:233-288 | presenting a rotated token again before it expires ends its whole family |
| TokenRaces.Undisturbed | backend-go/internal/app/handlers_auth.go:233-288 | a refresh that is not disturbed does under the scheduler what it does in one step |
| TokenRaces.RotationsAreConserved | backend-go/internal/app/handlers_auth.go:233-288 | over every schedule the rotations of a token, with the refreshes of it that have passed and not written, are exactly those that had passed before and those that passed since |
| TokenRaces.SpentIsExact | backend-go/internal/app/handlers_auth.go:233-288 | once a token is spent, some schedule rotates it n more times if and only if n refreshes of it had passed and not written |
| TokenRaces.LastRotationExactly | backend-go/internal/app/handlers_auth.go:268-288 | a rotation is the last of its token on every schedule if and only if no other refresh of it had passed by then |
| TokenRaces.AsOftenAsLiked | backend-go/internal/app/handlers_auth.go:233-288 | a token that is accepted can be rotated any number of times |
| TokenRaces.RotatedTwice | backend-go/internal/app/handlers_auth.go:233-288 | so can the token of a login, from the start |
| TokenRaces.FamilyDeadExactly | backend-go/internal/auth/token.go:108-165 | a revoked family stays dead on every schedule if and only if no refresh of it had passed and not written |
| TokenRaces.PassedRevives | backend-go/internal/app/handlers_auth.go:268-288 | such a refresh issues a token that is accepted once the family's entry has expired |
| TokenRaces.LogoutMissesRefresh | backend-go/internal/app/handlers_auth.go:290-310 | a schedule from the start on which a logout overtakes a refresh and leaves its family that way |
| DevicePairing.PairingServer.HandleCreate | backend-go/internal/app/handlers_device_link.go:102-147 | leaves the code pending under its creator, role and verifier, to expire with the pending lifetime, and no other code changed |
| DevicePairing.LivesExactly | backend-go/internal/app/handlers_device_link.go:43-54 | a code is there for two minutes after it was created, claimed or approved, and ten seconds after it was denied or consumed |
| DevicePairing.PairingServer.HandleApprove | backend-go/internal/app/handlers_device_link.go:174-237 | which answer it gives; only the creator of a live, claimed code stores a token pair under it |
| DevicePairing.PairingServer.HandleDeny | backend-go/internal/app/handlers_device_link.go:239-263 | the creator turns a live code into a short tombstone without tokens; for anybody else, and for a code that is gone, nothing changes, and the answers differ |
| DevicePairing.PairingServer.HandleClaim | backend-go/internal/app/handlers_device_link.go:275-342 | which answer it gives; only a live, unclaimed code with the right verifier is claimed |
| DevicePairing.PairingServer.HandlePoll | backend-go/internal/app/handlers_device_link.go:349-403 | which answer it gives; hands out the stored pair exactly when the code is approved for this verifier |
| DevicePairing.StageStep | backend-go/internal/app/handlers_device_link.go:102-403 | a code only moves forward through created, claimed, approved and over |
| DevicePairing.DeliveredAtMostOnce | backend-go/internal/app/handlers_device_link.go:81-98 | with atomic handlers a code delivers at most one pair in any run |
| DevicePairing.OverIsFinal | backend-go/internal/app/handlers_device_link.go:239-263 | consumed, denied and expired codes never deliver again |
| DevicePairing.DeliveryFollowsApproval | backend-go/internal/app/handlers_device_link.go:102-403 | a delivery comes after a creation, a claim with the same verifier and an approval by the creator, and hands out what that approval minted |
| DevicePairing.BlobReturnedAtMostOnce | backend-go/internal/app/handlers_device_link.go:81-98 | under any interleaving of Redis commands each stored pair is returned by at most one poll |
| DevicePairing.InterleavedApprovalsDeliverTwice | backend-go/internal/app/handlers_device_link.go:174-237 | two approvals that both read before either writes let one code deliver two pairs |
| DevicePairing.TwoApprovalsMintTwo | backend-go/internal/app/handlers_device_link.go:174-237 | two approvals with tokens of their own are among the schedules on which each pair goes out at most once |
| PairingRaces.Uninterrupted | backend-go/internal/app/handlers_device_link.go:102-403 | a handler that is not disturbed does under the scheduler what it does in one step |
| PairingRaces.DeliveriesAreBounded | backend-go/internal/app/handlers_device_link.go:81-403 | over every schedule the pairs handed out, with those still outstanding, are no more than those outstanding before and the approvals that passed their check |
| PairingRaces.DeliveredNoMoreThanApproved | backend-go/internal/app/handlers_device_link.go:174-403 | from the start a code hands out at most one pair for each approval that passed; at most one if at most one did |
| PairingRaces.UnapprovedDeliversNothing | backend-go/internal/app/handlers_device_link.go:174-403 | a code that nobody approves hands out nothing on any schedule, whatever happens to other codes |
| PairingRaces.OutstandingIsExact | backend-go/internal/app/handlers_device_link.go:174-403 | on schedules on which no further approval passes its check: some schedule hands out n pairs of an open code if and only if n are stored or about to be |
| PairingRaces.AtMostOneExactly | backend-go/internal/app/handlers_device_link.go:81-98 | an open code hands out at most one more pair on every schedule on which no further approval passes, if and only if at most one is outstanding |
| PairingRaces.OverlappingApprovals | backend-go/internal/app/handlers_device_link.go:174-237 | a schedule from the start after which two pairs are outstanding |
| PairingRaces.OverlappingClaims | backend-go/internal/app/handlers_device_link.go:275-342 | a schedule from the start on which two claims overlap and two approvals, each on its own, deliver two pairs |
| PairingRaces.DeniedDeliversExactly | backend-go/internal/app/handlers_device_link.go:174-263 | a denied code can still deliver if and only if an approval passed its check and has not written yet |
| PairingRaces.DeniedCodeDelivers | backend-go/internal/app/handlers_device_link.go:174-263 | a schedule from the start that leads there |
| RateLimiter.Limiter.RunScript | backend-go/internal/app/middleware_ratelimit.go:51-64 | counts one request and gives the counter an expiry whenever it has none |
| RateLimiter.Limiter.Handle | backend-go/internal/app/middleware_ratelimit.go:73-119 | which requests pass, and how the counters change |
| RateLimiter.AdmittedInLifetime | backend-go/internal/app/middleware_ratelimit.go:51-119 | within one lifetime of a counter exactly the first requests up to the capacity pass |
| RateLimiter.AdmittedInInterval | backend-go/internal/app/middleware_ratelimit.go:51-119 | over any interval of length L at most capacity times (ceil(L / window) + 1) requests of a key pass, whatever the other traffic |
| Subscriptions.InMemoryBroker.Subscribe | backend-go/internal/wsHub/broker.go:73-91 | adds one new callback to the topic |
| Subscriptions.InMemoryBroker.Unsubscribe | backend-go/internal/wsHub/broker.go:73-91 | the closure removes exactly that callback |
| Subscriptions.InMemoryBroker.Publish | backend-go/internal/wsHub/broker.go:56-71 | calls each callback of the topic exactly once |
| Subscriptions.Connection.HandleFrame | backend-go/internal/wsHub/hub.go:136-197 | what each frame does to the connection, the broker and the replies |
| Subscriptions.MyCloudWS.Subscribe | frontend/lib/ws.ts:143-155 | the first listener of a topic asks the server for it |
| Subscriptions.MyCloudWS.Unsubscribe | frontend/lib/ws.ts:156-165 | the last one gives it up |
| Subscriptions.MyCloudWS.OnMessage | frontend/lib/ws.ts:90-117 | an authentication reply replays the subscriptions and flushes the queue |
| Subscriptions.RunKeepsInv | backend-go/internal/wsHub/hub.go:136-221 | every interleaving of subscribes, unsubscribes, connects, disconnects and frames keeps one live callback per attached topic and frames that add up to the client's wishes |
| Subscriptions.ServerAgreesWithClient | frontend/lib/ws.ts:73-173 | with all frames of an authenticated connection processed, the server's topics are the client's allowed ones, besides the user topic |
| Subscriptions.HearsOnlyOwn | backend-go/internal/wsHub/hub.go:136-264 | whatever frames a connection reads, it never holds an admin topic, nor a user topic but of a user it authenticated as |
| Subscriptions.AskedIsHeard | backend-go/internal/wsHub/hub.go:136-264 | an authenticated connection that asks for a topic its user may hear gets it |
| Subscriptions.AuthenticatedIsHeard | backend-go/internal/wsHub/hub.go:136-197 | so does a new connection that authenticates first |
| Subscriptions.RefusedReadsNothing | backend-go/internal/wsHub/hub.go:136-165 | a connection refused for its token reads nothing more and attaches nothing |
| Subscriptions.OthersAreFree | backend-go/internal/wsHub/broker.go:73-91 | the runs leave other connections free to subscribe and unsubscribe |
| Subscriptions.EarlySubscriptionArrives | frontend/lib/ws.ts:73-173 | a subscription made before connecting reaches the server through the replay |
| EditDistance.DamerauLevenshtein | backend-go/internal/search/fuzzy.go:45-86 | the flattened table computes the recursive distance |
| EditDistance.DistanceIsLeastAlignmentCost | backend-go/internal/search/fuzzy.go:45-86 | the distance is the least cost over all alignments by insertions, deletions, substitutions and swaps of neighbours |
| EditDistance.DistanceIsSymmetric | backend-go/internal/search/fuzzy.go:45-86 | it is symmetric |
| EditDistance.DistanceIsZeroExactlyOnEqual | backend-go/internal/search/fuzzy.go:46-48 | it is zero exactly on equal strings, so the early return agrees with the table |
| EditDistance.DistanceBounds | backend-go/internal/search/fuzzy.go:45-86 | it lies between the difference of the lengths and the longer length |
| EditDistance.TriangleInequalityFails | backend-go/internal/search/fuzzy.go:45-86 | three strings for which the triangle inequality fails |
| EditComposition.Compose | backend-go/internal/search/fuzzy.go:45-86 | alignments without swaps compose, at no more than the sum of their costs |
| EditComposition.Triangle | backend-go/internal/search/fuzzy.go:45-86 | for all strings the triangle inequality holds up to a factor of two, and without it when neither leg has different neighbours to swap |
| EditComposition.CommonEndsDoNotMatter | backend-go/internal/search/fuzzy.go:45-86 | a common beginning and a common end do not change the distance |
| EditComposition.BetweenExactlyWhenUniform | backend-go/internal/search/fuzzy.go:45-86 | the triangle inequality holds through a string, for all others, if and only if the string repeats one character |
| EditDistance.Min3 | backend-go/internal/search/fuzzy.go:88-97 | a lower bound of its arguments that is one of them |
| SqlSplitter.SplitSql | backend-go/internal/db/migrate.go:115-156 | the index loop computes the character-by-character specification |
| SqlSplitter.SplitKeepsEverything | backend-go/internal/db/migrate.go:115-156 | joining the statements gives the input with each top-level comment replaced by a newline, up to a dropped blank tail |
| SqlSplitter.SplitUndoesTermination | backend-go/internal/db/migrate.go:115-156 | splitting statements that were each ended by a semicolon returns them |
| SqlSplitter.PiecesAreClean | backend-go/internal/db/migrate.go:115-156 | no statement has a semicolon or a comment outside a literal |
| SqlSplitter.LiteralIsOnePiece | backend-go/internal/db/migrate.go:115-156 | between single quotes, double quotes or backticks nothing splits and nothing is a comment, whatever the text |
| SqlSplitter.SplitIsStable | backend-go/internal/db/migrate.go:115-156 | terminating the statements of any text and splitting again gives them back if and only if the text does not end inside a literal |
| SqlSplitter.OpenLiteralIsUnstable | backend-go/internal/db/migrate.go:115-156 | a text that does, and changes |
| Pagination.TokenRoundTrip | backend-go/internal/pagination/cursor.go:45-84 | every non-empty cursor decodes from its token |
| Pagination.MalformedExactly | backend-go/internal/pagination/cursor.go:45-84 | a request is malformed exactly when its token is not empty and does not read as a cursor with a direction |
| Pagination.FilterCommutes | backend-go/internal/pagination/cursor.go:86-99 | filtering by a cursor before or after sorting is the same |
| Pagination.FilterIsSuffix | backend-go/internal/pagination/cursor.go:86-99 | the rows a cursor lets pass are exactly those after its row in the sorted listing |
| Pagination.ListFiles | backend-go/internal/app/handlers_files.go:97-203 | one page is the first rows of the filtered sorted listing, with a cursor at its last row exactly when the page is full |
| Pagination.PageContinues | backend-go/internal/app/handlers_files.go:97-203 | the page of a cursor continues the listing where the last page ended |
| Pagination.FollowCursors | backend-go/internal/app/handlers_files.go:97-203 | following cursors ends, and the pages joined are the full sorted listing, for every order, direction and page size |
| Pagination.ListingIsSortedRows | backend-go/internal/app/handlers_files.go:97-203 | that listing is sorted and has each row exactly once |

## Left out

- Cryptographic primitives, JWT, base64 and JSON encodings, SQL and Redis engines: abstract functions and atomic steps.
- The legacy single-blob format and range reads of files that were not written chunk by chunk to a common size.
- Restoring a version, ownership transfer, batch trash and restore, and rollback: they bypass the reference counts or the quota.
- Names, MIME types and normalised names of files beyond what uploads and copies compare.
- The deferred matching of renamed folders by fingerprint: the rename is modelled from the match on.
- Creating the remote folder of a sync root, pausing, progress events and the file watcher.
- Items of the remote tree left behind when a path changes between file and folder: the table forgets them.
- Subscriptions of closed connections, the outbound buffer and its overflow.
- Requests that the rate limiter lets through because Redis cannot be reached.
- A bound on folder depth for moved subtrees: only the destination's depth is checked.
- Search, sharing, thumbnails, previews, office documents, webhooks, administration and all user interfaces.
