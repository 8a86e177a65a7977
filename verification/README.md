# A2D notebook core: a verified model

A Dafny model of the durable core of the A2D smart notebook application, and proofs of what it promises.
Check everything with `dafny verify dfyconfig.toml`.

The application photographs paper notebook pages, registers each photograph as a scan, and reads text from it.
Its hard part is surviving a crash anywhere: recovery records, asset journals, a database and batch session
files are written one after another, and after a restart they have to agree. The model has these parts.

- **Scan registration.** `Registration` is a transition system: every durable write is one action, and `Halt`,
  a crash or an early error return, may come between any two. `RegistrationSafety` states one promise per
  predicate, `RegistrationSteps` proves that every action keeps them, and `RegistrationTheorems` reads off what
  holds over whole runs. `RegistrationReadable` is about records that can or can no longer be read,
  `RegistrationPhotos` about the photos themselves, `RegistrationLimits` about how many files there can be, and
  `RegistrationOrphans` about names left reserved.
  `RegistrationWitness` and `BatchWitness` show that the bad cases are reachable. `ScanCore` is the imperative
  core: a class whose methods write step by step, with any write free to fail, and whose recorded history is always
  a run of the transition system. Each operation says what refuses it; whether writes can fail at all is a constant of
  the library, `reliable`, so that its contracts also say when an operation has to succeed.
- **Record files.** `RecordFiles` refines one record file to bytes: temporary files, an empty reservation and
  renames, with any number of writers and crashes. `RecordWriter` is the code that does it, and `RecordCodec`
  the JSON values a record and a session are stored as.
- **Batch sessions.** `BatchSession` holds the edits of a session as functions, `BatchScanner` the operations on
  top of the core, `SessionList` the order of the list, and `SessionTheorems` what a clock that never runs
  backwards buys.
- **OCR queue.** `OcrJobs`, `OcrSystem`, `OcrSafety`, `OcrSteps` and `OcrTheorems` treat every section between
  locking and unlocking the storage as one action, so sections of different calls interleave freely.
  `OcrOutcomes` tells field by field what each action makes of a job and how long a failed one waits,
  `OcrCompletion` is about the one operation that checks no attempt, and `OcrQueue` is the queue as a class.
- **Algorithms.** `Numerals` and `IdCodec` (128-bit identifiers as text), `LinearSolver` (Gauss-Jordan elimination
  with partial pivoting, in every size), `SolverRuns` (its loops, on rows of any lengths), `Conditioning` (a bound on
  an inverse is enough for acceptance), `HomographySystem` and `HomographyMaps` (for which corners the homography
  system is regular), `FixtureScenes` (the two scenes that are drawn), `PreviewCodec` and `PreviewReader` (the
  length-prefixed binary result and its readers), `QrCodes`, `PageCodes` and `NotebookLibrary` (page codes: their text,
  the stored code of a page, and what a scanned code resolves to in every library that can be built).

## What is assumed

- A recovery token is fresh when a capture is begun under it, and so are generated identifiers: scan, asset, job,
  run, region, page and notebook ids. `TokenFresh`, `ScanIdFresh`, `FreshAssets`, `FreshPages` and `FreshIds` say
  exactly how fresh.
- The operations of registration and of batch sessions are serialised: between reading a record and replacing it
  nothing else writes it. The record file protocol itself is proved without this, for any interleaving of begins
  and updates; there removing a record does not race with updating it.
- A write, a rename, a removal and a database transaction are each one durable step. A directory sync that fails
  after its rename is reported as `SyncFailed` or `PersistUnsynced`, and the write is then there.
- The platform follows this protocol with a staging file: it writes a placeholder to a free path, begins a recovery
  for it, deletes the placeholder, and lets the camera write the photo to the same path. It may stop or fail between
  any two of these, it may write a photo without a placeholder, and it may delete a photo again when the result
  comes too late. It never deletes or overwrites a file while a begin or a registration of that file is in progress,
  because it waits for the answer. A placeholder is not an image, so no registration gets past decoding it.
- Clock readings are positive. Nothing else is assumed of the clock, except in `SessionTheorems`.
- The database offers atomic transactions over map-valued tables; its lookups and its queue order are modelled by
  search and selection loops proved against that order.

## Where the code falls short of its promises

Each item names the exact condition and a lemma that reaches the bad case.

- If marking a record committed fails without a crash, registration goes on to delete the staging file. The record
  then says Registering and cannot be read (`FinishedRecordReadable`, `SomeRunStrands`). A crash in the middle of a
  discard does the same (`InterruptedDiscardStrands`), and so do a discard of a second begin on the same file
  (`SecondBeginStrands`) and a registration of the file without the token (`TokenlessRegistrationStrands`).
  `StepStrandsExactly` proves that deleting the file is the only way, and names everything that deletes one. While
  such a record is there the records cannot be listed, so no capture can be begun and no batch session reconciled
  (`StrandedBlocks`), and nothing but a new file at that path undoes it (`StrandedStays`).
- A crash between reserving a record's name and the rename leaves an empty file (`LostExactlyByCrash`,
  `SomeRunOrphans`). It cannot be read and nothing removes it, so from then on no capture can ever be begun and no
  batch session reconciled (`OrphanBlocks`, `OrphanStays`).
- Every capture goes through a time without a file: the placeholder is deleted after the record is on disk, and the
  photo comes later. Until then the record is stranded like the ones above (`DeletedFileStrands`), and listing fails
  for everybody, a batch that saves an earlier page included. Normally the photo ends that (`PhotoFreesRecord`). But a
  crash or a camera failure in between is for good (`SomeRunWaitsForItsPhoto`): the handler's discard is refused as
  well, because the record cannot be read.
- A photo whose result arrives after the scanner was left is deleted by the platform although its record is on disk
  (`SomeRunLosesAPhoto`). `PhotosAreKept` proves that such a deletion and a discard are the only
  ways to lose a photo.
- `ListableExactly` sums this up: in a run that avoids the other ways to strand a record, the records can be listed
  between operations if and only if no name is left reserved, no discard was cut short, and no file the platform
  deleted still waits for its photo.
- A crash, or any failed rename, while a batch session is begun leaves an empty session file
  (`SomeRunOrphansSession`), and a session completed while the clock has gone back past its start can never be read
  again (`CompletedSessionReadable`, `SomeRunLosesASession`), though its records are still acknowledged. Either way
  the sessions cannot be listed and no batch session can ever be begun again (`LostSessionBlocks`,
  `LostSessionStays`). With a clock that never runs backwards the empty files are the only such ones
  (`SessionsListableExactly`).
- Batch reconciliation does not look at the database: a committed capture whose recovery record was acknowledged
  outside the batch is set aside for review (`BatchReconcileFindsTheRow` is the exact condition, `SomeRunSetsAside` a
  run).
- Completing an OCR job checks no attempt: any stored run of the scan and asset closes the running attempt, also one
  recorded by a worker whose claim was superseded (`CompletesExactly`, `AnyStoredRunCloses`,
  `SomeRunClosesALaterAttempt`). Only finalizing is fenced (`SupersededNeverCommits`).
- The solver's tolerance rejects systems with exactly one solution, in every size exactly those whose pivots are all
  positive and one of them below it (`RegularButRejected`, `TinyDiagonalIsRejected`, `CloseRowsAreRejected`). A
  rejection proves the matrix singular only when the reported pivot is zero (`ZeroPivotMeansSingular`). A matrix with
  an inverse of ordinary size is safe (`BoundedInverseIsAccepted`), and so are the two scenes the fixtures draw
  (`FixtureScenesAreAccepted`).
- The homography system fixes the constant of the denominator to one, so a convex scene whose horizon, the line
  its map sends to infinity, goes through the origin of the picture has no coefficients although it is a picture of a
  page (`HorizonIsSentToInfinity`, `PageIsRegular`, `ConvexSceneIsRejected`).
- A copy of a smart page code with another layout, number or page set still resolves to the page, and is refused only
  when a scan is registered (`ResolvedSmartPageIsTarget`, `SomeCopyResolves`).

## Model

| member | source | states |
|---|---|---|
| `RegistrationTheorems.ExactlyOnce` | crates/a2d-core/src/scanner_recovery.rs:720-820 | In every reachable state, whatever was interrupted, reconciled or retried, a recovery token is on at most one scan row. |
| `RegistrationTheorems.PhaseTellsTheTruth` | crates/a2d-core/src/scanner_recovery.rs:708-820 | A record that says Captured or PreviewReady has no scan row; one that says Committed names the row of its own token and page. |
| `RegistrationTheorems.NeverRegisteredAgain` | crates/a2d-core/src/scanner_recovery.rs:720-751 | A token that has a row can never start another registration. |
| `RegistrationTheorems.RowsStay` | crates/a2d-core/src/milestone9.rs:657-721 | Along a run no scan row and no asset file is ever taken back, and a row keeps its page, token and assets. |
| `RegistrationTheorems.ReconcileBelievesTheDatabase` | crates/a2d-core/src/scanner_recovery.rs:795-820 | Reconciling a Registering record gives Committed with exactly the row that exists, or PreviewReady if there is none; nothing else on disk changes, and a second reconcile has nothing to do. |
| `RegistrationPhotos.PhotosAreKept` | apps/android/app/src/main/kotlin/com/a2d/notebook/feature/scanner/singlepage/ScanRegistrationRequest.kt:184-205 | No photo is lost: from the moment it is staged for a stored record, in whichever order placeholder, begin and photo came, it is still staged, or is the original of a committed scan, or its discard was started, or the platform itself deleted it. |
| `RegistrationTheorems.DiscardedBeforeRegistration` | crates/a2d-core/src/scanner_recovery.rs:822-848 | A discard can only start while the token has no scan row. |
| `RegistrationTheorems.OrphansHaveJournals` | crates/a2d-core/src/milestone9.rs:199-276 | An asset file no scan row lists was produced by a registration whose journal is still on disk and explains that very asset. |
| `RegistrationTheorems.JournalsOutliveOrphans` | crates/a2d-core/src/milestone9.rs:721-750 | A journal leaves the disk only when its scan row is in and all four assets of the row are committed and have their rows. |
| `RegistrationTheorems.RowsAlterOnlyByPreference` | crates/a2d-storage/src/preferred_scan.rs:295-345 | The one step that alters a stored scan row is a change of the preferred scan, and it sets the flag of every scan of that page, and only the flag. |
| `RegistrationTheorems.OnePreferredScan` | crates/a2d-storage/src/preferred_scan.rs:295-345 | Of two scans of a page, one of them preferred, the other is preferred only if it is the same scan, and the page names it; whichever scans were chosen on the way. |
| `RegistrationTheorems.SomePreferredScan` | crates/a2d-core/src/milestone9.rs:502-536 | A page with a scan has a preferred one. |
| `RegistrationPhotos.CarefulRecordsStayReadable` | crates/a2d-core/src/scanner_recovery.rs:394-478 | If no file is begun on twice or registered away from the record that needs it, and marking a record committed never fails without a crash, every complete record whose photo has been written stays readable across crashes, with that photo staged until it is committed, unless its own discard was started or the platform deleted that photo; and a Registering one can always be reconciled. |
| `RegistrationReadable.StepStrandsExactly` | crates/a2d-core/src/scanner_recovery.rs:394-404 | One step makes a readable record that is not committed unreadable, without removing it, exactly when it deletes the staging file the record names: a discard, also of another record, the end of a registration, also of one without the token, or the platform. |
| `RegistrationOrphans.ListableExactly` | crates/a2d-core/src/scanner_recovery.rs:661-706 | Between operations of such a run the records can be listed if and only if no name is left reserved, no discard was cut short, and no file the platform deleted still waits for its photo. |
| `RegistrationPhotos.DeletedFileStrands` | apps/android/app/src/main/kotlin/com/a2d/notebook/feature/scanner/camera/CameraXAdapter.kt:96-118 | When the platform deletes the placeholder of a record, the record is stranded. |
| `RegistrationPhotos.PhotoFreesRecord` | apps/android/app/src/main/kotlin/com/a2d/notebook/feature/scanner/singlepage/SinglePageScannerViewModel.kt:349-372 | Writing the photo is possible whenever a record is stranded, makes the record readable as it was, and is followed from then on. |
| `RegistrationWitness.SomeRunWaitsForItsPhoto` | apps/android/app/src/main/kotlin/com/a2d/notebook/feature/scanner/singlepage/ScanRegistrationRequest.kt:184-205 | A concrete run ends with a record whose placeholder the platform deleted and whose photo has not come. |
| `RegistrationWitness.SomeRunLosesAPhoto` | apps/android/app/src/main/kotlin/com/a2d/notebook/feature/scanner/singlepage/SinglePageScannerViewModel.kt:349-366 | A concrete run in which the platform deletes a photo that came too late ends with its record stranded and the photo nowhere. |
| `RegistrationLimits.LimitsHold` | crates/a2d-core/src/batch_scanner.rs:564-583 | In every reachable state there are at most 128 record files and 32 session files, at most one stored session is open, and none while another is being opened. |
| `RegistrationReadable.StrandedBlocks` | crates/a2d-core/src/scanner_recovery.rs:394-404 | A record that is not committed and whose staging file is gone cannot be read, reconciled or discarded, and every listing of the records fails. |
| `RegistrationReadable.StrandedStays` | crates/a2d-core/src/scanner_recovery.rs:419-478 | Along any run such a record stays as it is, until a file is captured at its staging path. |
| `RegistrationReadable.FinishedRecordReadable` | crates/a2d-core/src/milestone9.rs:733-754 | At the end of a registration the record is readable exactly when it was marked committed; left unmarked, it is stranded. |
| `RegistrationReadable.InterruptedDiscardStrands` | crates/a2d-core/src/scanner_recovery.rs:822-848 | A crash between the two deletions of a discard strands the record. |
| `RegistrationOrphans.CrashOrphans` | crates/a2d-core/src/scanner_recovery.rs:517-560 | A crash right after any reservation of a record's name leaves an empty record file nobody owns. |
| `RegistrationOrphans.OrphanBlocks` | crates/a2d-core/src/scanner_recovery.rs:636-643 | While an empty record file is left over no record can be listed, so no capture can be begun and no batch session reconciled. |
| `RegistrationOrphans.OrphanStays` | crates/a2d-core/src/scanner_recovery.rs:480-565 | An empty record file that no begin in progress owns stays for the rest of every run, and so nothing is ever begun again. |
| `RegistrationOrphans.SomeRunOrphans` | crates/a2d-core/src/scanner_recovery.rs:517-560 | A concrete run, a crash between the reservation and the rename, ends with such a file. |
| `RegistrationWitness.EveryRegistrationCanStrand` | crates/a2d-core/src/milestone9.rs:733-754 | From every reachable state in which a registration with a token may start, some continuation ends with that record stranded. |
| `RegistrationWitness.TokenlessRegistrationStrands` | crates/a2d-core/src/milestone9.rs:721-754 | Any registration without a token of a file a record still needs can run to its end, and then the record is stranded. |
| `RegistrationWitness.SecondBeginStrands` | crates/a2d-core/src/scanner_recovery.rs:623-659 | Any second begin on a file a record still needs can be discarded again, and then the first record is stranded. |
| `RegistrationWitness.SomeRunStrands` | crates/a2d-core/src/milestone9.rs:733-754 | A concrete run from the empty library ends with a stranded record. |
| `ScanCore.Core.constructor` | crates/a2d-core/src/scanner_recovery.rs:198-220 | A new library starts one of the system's runs. |
| `ScanCore.Core.ListScannerRecoveries` | crates/a2d-core/src/scanner_recovery.rs:661-706 | Returns every record, or fails exactly when there are more than 128 or one of them cannot be read. |
| `ScanCore.Core.WriteNewScannerRecovery` | crates/a2d-core/src/scanner_recovery.rs:480-565 | Afterwards the record is filed whole under a name that was free, or the disk is as it was. |
| `ScanCore.Core.BeginScannerRecovery` | crates/a2d-core/src/scanner_recovery.rs:623-659 | Succeeds for an unused valid token, a usable file and the page of an open notebook while there are fewer than 128 listable records, and then the Captured record is there and can be read. Every refusal has its own condition, in the order of the checks; otherwise only a write can fail, and not in a reliable library. |
| `ScanCore.Core.MarkScannerRecoveryPreviewReady` | crates/a2d-core/src/scanner_recovery.rs:708-718 | Succeeds only from Captured; the record becomes PreviewReady and nothing else changes. Each refusal has its condition, and otherwise only the replacement can fail. |
| `ScanCore.Core.FindScanByRecoveryToken` | crates/a2d-core/src/scanner_recovery.rs:795-820 | Finds a row of that token and page, or none exists. |
| `ScanCore.Core.ReconcileScannerRecovery` | crates/a2d-core/src/scanner_recovery.rs:795-820 | A returned record is readable and never Registering: Committed with the only row of the token, or PreviewReady if it has none; records in other phases are left alone. It fails exactly for an unreadable record, or because a write failed. |
| `ScanCore.Core.DiscardScannerRecovery` | crates/a2d-core/src/scanner_recovery.rs:822-848 | Removes the staging file and then the record, is refused exactly for a record past PreviewReady or one that cannot be read, and never touches scans, pages or sessions. |
| `ScanCore.Core.AcknowledgeCommittedScannerRecovery` | crates/a2d-core/src/scanner_recovery.rs:850-885 | Removes only a Committed record, and only for the scan it names. |
| `ScanCore.Core.CheckRequest` | crates/a2d-core/src/milestone9.rs:366-536 | Accepts exactly the approved requests with a positive time, a page that is there and writable, a staged file that is no placeholder and could be processed, a notebook if there is a token, and a page whose state agrees with its preferred scan; a page that has a preferred scan is never found inconsistent. Every refusal names a cause that is there. |
| `ScanCore.Core.MarkRegistering` | crates/a2d-core/src/milestone9.rs:538-554 | The record matched the request, was PreviewReady and now says Registering; nothing else changed. |
| `ScanCore.Core.Prepare` | crates/a2d-core/src/milestone9.rs:366-554 | Every check and the mark: afterwards the record says Registering, or nothing but that record may have changed and the error names its cause. |
| `ScanCore.Core.OpenJournal` | crates/a2d-core/src/milestone9.rs:200-228 | A fresh journal naming the scan and the staging path, or an early stop that changed only journals. |
| `ScanCore.Core.FileAsset` | crates/a2d-core/src/milestone9.rs:561-597 | One asset is announced, committed with its content and recorded, in that order. |
| `ScanCore.Core.CommitTransaction` | crates/a2d-core/src/milestone9.rs:657-721 | The scan row, its asset rows and its page change together or not at all. |
| `ScanCore.Core.SettleRecord` | crates/a2d-core/src/milestone9.rs:733-744 | The record is marked Committed with the new row, or a pending reconciliation is reported. |
| `ScanCore.Core.CompleteJournal` | crates/a2d-core/src/milestone9.rs:269-276 | The journal is sealed and removed, or is reported as left behind. |
| `ScanCore.Core.RegisterRows` | crates/a2d-core/src/milestone9.rs:556-721 | Whatever fails before the transaction, no row, page, record or staging file has changed; on success the row is in with its four assets. |
| `ScanCore.Core.RemoveStagingFile` | crates/a2d-core/src/milestone9.rs:751-754 | The staging file goes, or is reported as left. |
| `ScanCore.Core.FinishRegistration` | crates/a2d-core/src/milestone9.rs:733-773 | Each cleanup either happened or is reported, and nothing but the record, the journal and the staging file changes. |
| `ScanCore.Core.RegisterScan` | crates/a2d-core/src/milestone9.rs:358-773 | On failure no row, page or staging file has changed, its record is as it was or says Registering, and the error names its cause. On success the one new row with its four assets is in, the token had no row before, and every unfinished cleanup is reported truthfully. In a reliable library it succeeds if and only if the request is acceptable and its record is ready and agrees with it. |
| `RecordFiles.NeverPartial` | crates/a2d-core/src/scanner_recovery.rs:480-621 | Under any interleaving of writers and crashes a record file is absent, empty, or one whole record somebody asked to write. |
| `RecordFiles.BeginNeverClobbers` | crates/a2d-core/src/scanner_recovery.rs:480-565 | A begin renames only over an empty reservation, and its failed rename removes only that. |
| `RecordFiles.FinalChangesWhole` | crates/a2d-core/src/scanner_recovery.rs:567-621 | Step by step a record file changes only by reservation, release, a whole new record, a whole replacement, or removal. |
| `RecordFiles.LostReservationStays` | crates/a2d-core/src/scanner_recovery.rs:517-560 | A reservation orphaned by a crash stays empty for ever, and no later begin can use the name. |
| `RecordFiles.LostExactlyByCrash` | crates/a2d-core/src/scanner_recovery.rs:517-560 | A name gets lost in exactly one way: a crash while a begin holds its reservation. |
| `RecordFiles.EveryBeginCanLoseTheName` | crates/a2d-core/src/scanner_recovery.rs:480-560 | Whenever the name is free, any begin of any record can end with the name lost. |
| `RecordFiles.SomeRunLosesTheName` | crates/a2d-core/src/scanner_recovery.rs:480-560 | A concrete run does. |
| `RecordWriter.RecordDirectory.FillTemp` | crates/a2d-core/src/scanner_recovery.rs:486-515 | The temporary file receives the record, piece by piece; a failure leaves every other file alone. |
| `RecordWriter.RecordDirectory.Publish` | crates/a2d-core/src/scanner_recovery.rs:517-565 | Reserve and rename: the record appears whole exactly when the name was free. |
| `RecordWriter.RecordDirectory.WriteNew` | crates/a2d-core/src/scanner_recovery.rs:480-565 | The record becomes visible whole under a free name, or the name is as it was; no temporary file is left. |
| `RecordWriter.RecordDirectory.Replace` | crates/a2d-core/src/scanner_recovery.rs:567-621 | An existing file, even an empty one, holds exactly its old content or exactly the new record afterwards; one that is not there is refused. |
| `RecordCodec.RecordRoundTrip` | crates/a2d-core/src/scanner_recovery.rs:297-417 | An encoded record parses back to itself exactly when it is well shaped and names a path and a layout; otherwise it is refused. |
| `RecordCodec.ParsedRecordIsWellShaped` | crates/a2d-core/src/scanner_recovery.rs:331-417 | Whatever JSON value is parsed, the result is well shaped and encodes back to itself. |
| `RecordCodec.SessionRoundTrip` | crates/a2d-core/src/batch_scanner.rs:237-396 | An encoded session parses back to itself exactly when the reader's rules hold of it; otherwise it is refused. |
| `RecordCodec.ParsedSessionIsReadable` | crates/a2d-core/src/batch_scanner.rs:281-396 | Whatever JSON value is parsed as a session obeys the reader's rules. |
| `RecordCodec.ParseItems` | crates/a2d-core/src/batch_scanner.rs:338-389 | The entry loop with its set of tokens accepts exactly the lists of readable entries without a repeated token. |
| `RecordCodec.ParseSession` | crates/a2d-core/src/batch_scanner.rs:281-396 | The parser as written computes the specification the round trip is proved about. |
| `RegistrationTheorems.SavedEntriesNameTheirRow` | crates/a2d-core/src/batch_scanner.rs:868-943 | A Saved entry of any session file ever seen names the scan row of its own token and page. |
| `RegistrationTheorems.SessionsKeepTheirRules` | crates/a2d-core/src/batch_scanner.rs:648-742 | In every session file tokens are distinct, Saved means a scan id, completed means nothing queued, duplicates are flagged exactly, and the unflagged entries count the distinct pages. |
| `RegistrationTheorems.BatchReconcileFindsTheRow` | crates/a2d-core/src/batch_scanner.rs:945-998 | A queued entry whose capture has a row comes out of reconciliation Saved with exactly that row if and only if its recovery record is still there; otherwise it is set aside for review. |
| `RegistrationTheorems.BatchReconcileIsStable` | crates/a2d-core/src/batch_scanner.rs:945-998 | After a batch reconciliation another one is possible, and changes nothing at all. |
| `BatchWitness.EveryAcknowledgedCaptureIsSetAside` | crates/a2d-core/src/batch_scanner.rs:957-972 | Whenever the committed record of a queued capture is acknowledged outside its batch, reconciling sets the capture aside although its scan is there. |
| `BatchWitness.SomeRunSetsAside` | crates/a2d-core/src/batch_scanner.rs:957-972 | A concrete run from the empty library ends like that. |
| `RegistrationTheorems.CompletionDeletesAfterSaved` | crates/a2d-core/src/batch_scanner.rs:1000-1051 | A batch step removes a recovery record only when the completed session file on disk already says Saved with the row the record names. |
| `RegistrationTheorems.QueuedRecordsOutliveTheBatch` | crates/a2d-core/src/batch_scanner.rs:1019-1049 | While an entry is queued its recovery record goes only by a discard or by an acknowledgement outside its own session. |
| `RegistrationReadable.CompletedSessionReadable` | crates/a2d-core/src/batch_scanner.rs:311-319 | A session just completed can be read again if and only if the clock has not gone back past its start. |
| `SessionTheorems.SessionsStayReadable` | crates/a2d-core/src/batch_scanner.rs:237-396 | With a clock that never runs backwards every session file ever written is read back as it was written, and its JSON parses back equal. |
| `SessionTheorems.SessionsListableExactly` | crates/a2d-core/src/batch_scanner.rs:595-646 | With such a clock the sessions can be listed if and only if no session name is left reserved. |
| `RegistrationOrphans.LostSessionBlocks` | crates/a2d-core/src/batch_scanner.rs:564-583 | While a session file cannot be read the sessions cannot be listed, so no batch session can be begun. |
| `RegistrationOrphans.LostSessionStays` | crates/a2d-core/src/batch_scanner.rs:451-532 | A session file that cannot be read, left empty or completed before its start, stays for the rest of every run, and so no batch session is ever begun again. |
| `BatchWitness.EverySessionCanBeLost` | crates/a2d-core/src/batch_scanner.rs:1000-1018 | Any open session that can be completed is lost if the clock has gone back past its start. |
| `BatchWitness.SomeRunLosesASession` | crates/a2d-core/src/batch_scanner.rs:1000-1018 | A concrete run from the empty library ends with such a session. |
| `BatchWitness.SomeRunOrphansSession` | crates/a2d-core/src/batch_scanner.rs:506-532 | A concrete run, a crash between the reservation and the rename, ends with an empty session file. |
| `BatchSession.CaptureKeepsSession` | crates/a2d-core/src/batch_scanner.rs:648-742 | Queuing keeps every session rule. |
| `BatchSession.EntryKeepsSession` | crates/a2d-core/src/batch_scanner.rs:803-943 | Saving an entry or setting it aside keeps every session rule. |
| `BatchSession.ReconcileKeepsSession` | crates/a2d-core/src/batch_scanner.rs:945-998 | Reconciliation keeps every session rule. |
| `BatchSession.UnflaggedCountsPages` | crates/a2d-core/src/batch_scanner.rs:722-740 | Entries without the duplicate flag count the distinct pages of a batch. |
| `BatchScanner.ListBatchScanSessions` | crates/a2d-core/src/batch_scanner.rs:595-646 | Returns exactly the sessions asked for, by start time and then id, each once, or fails exactly when there are more than 32 or one of them cannot be read. |
| `SessionList.TextBeforeMeans` | crates/a2d-core/src/batch_scanner.rs:595-646 | The order of texts the list uses: they agree up to some place, and there the first ends or has the smaller character. |
| `BatchScanner.PersistSession` | crates/a2d-core/src/batch_scanner.rs:451-532 | An existing session file is replaced whole or not at all. |
| `BatchScanner.CreateSession` | crates/a2d-core/src/batch_scanner.rs:506-532 | A new session file is reserved and then holds the whole session; after a failure it is absent, left reserved, or there in full with only the directory sync missing, and no other session file has changed. |
| `BatchScanner.BeginBatchScanSession` | crates/a2d-core/src/batch_scanner.rs:534-593 | Opens an empty session under a new id for the active notebook that is not archived, only while every stored session is completed and there are fewer than 32; each refusal has its own condition, otherwise only the write can fail, and a failure leaves every other session file alone, and that session absent, reserved, or stored. |
| `BatchScanner.QueueBatchScanCapture` | crates/a2d-core/src/batch_scanner.rs:648-742 | Appends the capture once, with the time, page and file of its record and the duplicate flag of its page, only from a record nothing was registered for; a token already there changes nothing. Each refusal has its own condition, in the order of the checks, and otherwise only the write can fail. |
| `BatchScanner.ReconcileRecords` | crates/a2d-core/src/batch_scanner.rs:945-956 | Afterwards every record that said Registering says what the database does, every other one is as it was, and none is lost; it fails exactly when the records cannot be listed, or because a write failed. |
| `BatchScanner.ReconcileEntries` | crates/a2d-core/src/batch_scanner.rs:957-995 | The loop over the entries computes the reconciled session. |
| `BatchScanner.ReconcileBatchScanSession` | crates/a2d-core/src/batch_scanner.rs:945-998 | Of a returned session every queued capture with a record and a row is Saved with that row, one without a record is set aside, and every other entry is as it was; records are settled, none is lost, and other sessions are untouched. It fails exactly when the session cannot be read or the records cannot be listed, or because a write failed. |
| `BatchScanner.SaveEntry` | crates/a2d-core/src/batch_scanner.rs:896-941 | The entry is Saved with the row; a review is kept, or opened exactly when one is needed. |
| `BatchScanner.RecordBatchScanSaved` | crates/a2d-core/src/batch_scanner.rs:868-943 | Only the token's entry changes, to Saved with the new row; a failure changes nothing. |
| `BatchScanner.CheckRegistration` | crates/a2d-core/src/batch_scanner.rs:750-797 | A registration is authorized exactly for a queued entry of an open session with the same page and notebook. |
| `BatchScanner.RegisterBatchScan` | crates/a2d-core/src/batch_scanner.rs:744-801 | Adds at most the one row, never for a token that has one; on success the row and its assets are in and the durable entry is Saved with it. In a reliable library it succeeds if and only if the open session has the capture queued for that page and notebook, its record fits, and page and photo are acceptable. |
| `BatchScanner.ReportBatchScanReview` | crates/a2d-core/src/batch_scanner.rs:803-866 | A capture that is not saved is set aside with the message and a review; a saved one is never changed. Each refusal has its own condition, and otherwise only a write can fail. |
| `BatchScanner.AcknowledgeEntry` | crates/a2d-core/src/batch_scanner.rs:1023-1048 | Drops the one record, and only if it says Committed with the entry's own scan, or will once reconciled; every other record is as it was, and only a record of another scan is refused. |
| `BatchScanner.SavedIsCommitted` | crates/a2d-core/src/batch_scanner.rs:1023-1048 | In every reachable state the record of a saved entry, if it is still there, is committed to the scan of the entry, or will be once reconciled. |
| `BatchScanner.AcknowledgeEntries` | crates/a2d-core/src/batch_scanner.rs:1021-1049 | The records of the saved entries go, and no others; only unlistable records or a failed write can stop it, because a record of a saved entry can only be committed to its scan. |
| `BatchScanner.CompleteBatchScanSession` | crates/a2d-core/src/batch_scanner.rs:1000-1051 | Whatever happens, a record is gone only if the completed session on disk says Saved for it; on success nothing is queued, captures with a row are Saved with it, and the saved records are gone. It is refused for pending captures only if, once reconciled, the session on disk has a queued entry, and in a reliable library a readable session with listable records completes if and only if no capture of it still waits to be registered. |
| `BatchScanner.AcknowledgeBatchScanSession` | crates/a2d-core/src/batch_scanner.rs:1053-1076 | Only a completed session file is removed; an open or unreadable one is refused, and otherwise only the removal can fail. |
| `OcrTheorems.QueuedIsUnflagged` | crates/a2d-core/src/ocr_queue.rs:162-194 | A queued job never carries a cancellation request, so clearing the flag at claim drops nothing. |
| `OcrTheorems.CancellationIsNeverLost` | crates/a2d-core/src/ocr_queue.rs:223-259 | A running job once flagged stays that attempt, flagged, until it is Cancelled. |
| `OcrTheorems.SettledForGood` | crates/a2d-core/src/ocr_manual_retry.rs:35-77 | A Recognized or Cancelled job never changes again. |
| `OcrTheorems.SpentForGood` | crates/a2d-core/src/ocr_finalization.rs:353-374 | An attempt that is over stays over. |
| `OcrTheorems.SupersededNeverCommits` | crates/a2d-core/src/ocr_finalization.rs:353-374 | A claim that was superseded or has ended can never finalize later in the run. |
| `OcrTheorems.AttemptEndsExactly` | crates/a2d-core/src/ocr_finalization.rs:353-374 | A running attempt ends in exactly three ways: it is interrupted, completed, or committed. |
| `OcrTheorems.AttemptsAscend` | crates/a2d-core/src/ocr_queue.rs:162-194 | Claims of one job carry strictly increasing attempts, and no attempt ends twice. |
| `OcrTheorems.AttemptsAreConserved` | crates/a2d-core/src/ocr_finalization.rs:474-528 | `attempt_count` is the number of claims, and of ended attempts plus one if running; it is at most three, and below three while queued. |
| `OcrTheorems.ClaimLimitIsUnreachable` | crates/a2d-core/src/ocr_queue.rs:170-180 | The attempt-limit error of claim cannot happen. |
| `OcrTheorems.MeasureDrops` | crates/a2d-core/src/ocr_manual_retry.rs:43-77 | Every change of status, manual retries included, strictly lowers a non-negative measure. |
| `OcrTheorems.AtMostEightChanges` | crates/a2d-core/src/ocr_manual_retry.rs:43-77 | A job changes status at most eight times in any run. |
| `OcrTheorems.QueueIsBounded` | crates/a2d-core/src/ocr_queue.rs:93-160 | At most one job runs, at most one is active for a scan, and active jobs never exceed 64 plus the manual retries made. |
| `OcrTheorems.CommitsAreAtomic` | crates/a2d-core/src/ocr_finalization.rs:69-199 | A run written by finalize is stored with all its regions, and it is a text result exactly when its job is Recognized and names it. |
| `OcrTheorems.RecognizedHasText` | crates/a2d-core/src/ocr_finalization.rs:474-528 | A Recognized job names a stored text result of its own scan and asset. |
| `OcrTheorems.InputNeverChanges` | crates/a2d-core/src/ocr_queue.rs:93-160 | A job keeps the scan, asset and dimensions it was enqueued with. |
| `OcrTheorems.RegionPointsInSource` | crates/a2d-core/src/ocr_finalization.rs:234-266 | Every stored region point lies in the source image of its job, although the bounds were checked before the transaction. |
| `OcrCompletion.CompletesExactly` | crates/a2d-core/src/ocr_queue.rs:261-365 | In every reachable state complete succeeds if and only if the job runs, the run is stored and of its scan and asset, and the clock was not set back past the job's creation; the attempt plays no part. |
| `OcrCompletion.AnyStoredRunCloses` | crates/a2d-core/src/ocr_queue.rs:261-365 | A run stored once, in whichever attempt, can end every attempt of its job that runs later; a text run of a job that was not cancelled ends it Recognized. |
| `OcrCompletion.SomeRunClosesALaterAttempt` | crates/a2d-core/src/ocr_queue.rs:261-365 | A concrete run in which a result recorded during attempt 1 ends attempt 2 Recognized. |
| `OcrOutcomes.CommitOutcome` | crates/a2d-core/src/ocr_finalization.rs:474-535 | What finalizing leaves of a job in every reachable state: it is queued again exactly when it was not cancelled, the result is unavailable for a passing reason, retryable, and the attempt the first or second, and then it is due two seconds, or four, after now, capped at the largest time; the other statuses, error codes and availabilities each by the reason. |
| `OcrOutcomes.CompleteOutcome` | crates/a2d-core/src/ocr_queue.rs:299-363 | Completing leaves the same, by the status and reason of the run it names. |
| `OcrOutcomes.CommitStores` | crates/a2d-core/src/ocr_finalization.rs:119-172 | Finalizing stores one run as requested, on the scan and asset of the job, and every region of the request under its own id, and nothing else. |
| `OcrOutcomes.OtherOutcome` | crates/a2d-core/src/ocr_queue.rs:368-398 | Field by field what a claim, an interruption, a cancellation and a retry by hand leave of a job in every reachable state; an interrupted or retried job is due at once. |
| `OcrOutcomes.RequeuedJobWaits` | crates/a2d-core/src/ocr_finalization.rs:509-535 | However long the run, a job queued again after a failed attempt is not claimed before two seconds have passed, or four after the second attempt. |
| `OcrJobs.RetryDelayDoubles` | crates/a2d-core/src/ocr_queue.rs:400-405 | The retry delay is two seconds after the first attempt and doubles with every further one, up to thirty. |
| `OcrQueue.Oldest` | crates/a2d-storage/src/ocr_job_repository.rs:294-309 | The query order: no candidate comes before the one returned. |
| `OcrQueue.Newest` | crates/a2d-storage/src/ocr_manual_retry_repository.rs:12-31 | No candidate is newer than the one returned. |
| `OcrQueue.ApplyTerminalTransition` | crates/a2d-core/src/ocr_finalization.rs:474-528 | Field by field assignment leaves what the outcome laws below say of the attempt: whether it is queued again and until when, its error code and its availability. |
| `OcrQueue.CompleteWith` | crates/a2d-core/src/ocr_queue.rs:299-363 | A flagged job, or a run the user cancelled, ends Cancelled; otherwise the terminal transition applies. |
| `OcrQueue.RegionsInBounds` | crates/a2d-core/src/ocr_finalization.rs:234-266 | The loop accepts exactly the regions whose points lie within the source. |
| `OcrQueue.BuildRegions` | crates/a2d-core/src/ocr_finalization.rs:438-472 | Exactly the requested regions are stored, each under its own id, or the request is refused. |
| `OcrQueue.Queue.FindActiveForScan` | crates/a2d-storage/src/ocr_job_repository.rs:259-276 | Finds an active job of the scan exactly when there is one. |
| `OcrQueue.Queue.NextDueJob` | crates/a2d-storage/src/ocr_job_repository.rs:294-309 | The due job that comes first in the queue order, or none is due. |
| `OcrQueue.Queue.Enqueue` | crates/a2d-core/src/ocr_queue.rs:93-160 | A scan with an active job gets that job back; otherwise one new queued job, due at once, or the capacity error exactly at 64 active jobs, or a refusal exactly for an empty image or a negative time. |
| `OcrQueue.Queue.RecoverInterrupted` | crates/a2d-core/src/ocr_queue.rs:368-398 | Every job found running is interrupted, and no other changes; it stops exactly when the clock was set back past the creation of one of them. |
| `OcrQueue.Queue.ClaimNext` | crates/a2d-core/src/ocr_queue.rs:162-194 | Every running job is recovered; the claimed job is the oldest of those then due, it is the only one running, and its attempt went up by one; nothing is claimed exactly when nothing is due. It fails exactly when the clock was set back past the creation of a running job or of the one to claim. |
| `OcrQueue.Queue.RequestCancellation` | crates/a2d-core/src/ocr_queue.rs:223-259 | A queued job ends Cancelled, a running one is flagged, a cancelled one is left as it is, a finished one is refused. |
| `OcrQueue.Queue.RecordOcrRun` | crates/a2d-core/src/ocr.rs:117-182 | Stores a run exactly when its labels and warnings are within bounds, its asset sits in its own slot of the scan and cannot change, and its status, text and reason agree. |
| `OcrQueue.Queue.CompleteJob` | crates/a2d-core/src/ocr_queue.rs:261-365 | A running job is closed with a recorded run of its own scan and asset, and becomes what the outcome law says; each refusal has its own condition. |
| `OcrQueue.Queue.FinalizeRead` | crates/a2d-core/src/ocr_finalization.rs:73-80 | Accepts exactly the well-formed requests whose regions fit the source of the job as read. |
| `OcrQueue.Queue.BuildRows` | crates/a2d-core/src/ocr_finalization.rs:119-172 | The finished job and its region rows are those of the specification, or nothing is written. |
| `OcrQueue.Queue.InputStillUsable` | crates/a2d-core/src/ocr_finalization.rs:376-426 | The scan still holds the asset in the slot of its kind, and the asset is immutable. |
| `OcrQueue.Queue.CommitCancelled` | crates/a2d-core/src/ocr_finalization.rs:91-117 | A cancellation seen inside the transaction ends the job Cancelled and records no run. |
| `OcrQueue.Queue.CommitRecorded` | crates/a2d-core/src/ocr_finalization.rs:119-197 | Run, regions and job change together, as one allowed step, or not at all, and that only because the input changed or the clock was set back. |
| `OcrQueue.Queue.FinalizeCommit` | crates/a2d-core/src/ocr_finalization.rs:82-197 | The whole transaction is one allowed step of the queue system and leaves what the outcome law says, or nothing changes; a superseded or ended attempt is refused, and every other refusal has its own condition. |
| `OcrQueue.Queue.FindLatestForScan` | crates/a2d-storage/src/ocr_manual_retry_repository.rs:12-31 | The newest job of the scan, or it has none. |
| `OcrQueue.Queue.ManualRetry` | crates/a2d-core/src/ocr_manual_retry.rs:11-79 | Only the latest job of a scan without an active job, and only an Unavailable one with a passing error and attempts left, is queued again, due at once, with its attempts and history kept; every other answer has its condition. |
| `IdCodec.Encode128` | crates/a2d-domain/src/id.rs:28-40 | The shifts and masks write the base-32 digits of the value, most significant first. |
| `IdCodec.Decode128` | crates/a2d-domain/src/id.rs:48-66 | The accumulator loop computes the specified decoding, with the same error for every refused text. |
| `IdCodec.DecodeUndoesEncode` | crates/a2d-domain/src/id.rs:28-66 | All 2^128 values survive the round trip. |
| `IdCodec.EncodeUndoesDecode` | crates/a2d-domain/src/id.rs:48-66 | Exactly the 26-letter texts over the alphabet with a first digit of at most 7 are accepted, and encoding gives the same text back. |
| `IdCodec.TextOrderIsNumericOrder` | crates/a2d-domain/src/id.rs:11-40 | One identifier's text sorts before another's exactly when its value is smaller. |
| `IdCodec.BigEndianStep` | crates/a2d-domain/src/id.rs:28-40 | The value of the bytes is 256 times that of all but the last, plus the last. |
| `IdCodec.TextOrderIsByteOrder` | crates/a2d-domain/src/id.rs:11-66 | One identifier's text sorts before another's exactly when its sixteen bytes come first, compared from the first byte. |
| `SolverRuns.FindPivot` | tools/generate_scan_fixtures.py:206-206 | The first row of largest absolute value in the column, or an index error if a row is too short. |
| `SolverRuns.ClearColumn` | tools/generate_scan_fixtures.py:212-221 | Row by row the column is cleared outside the pivot row, skipping zeros, until a row is too short or of another length. |
| `SolverRuns.ReduceColumn` | tools/generate_scan_fixtures.py:206-221 | Search, swap, scale and clear, in place, are one step of the run, with its errors in its order. |
| `SolverRuns.SolveLinear` | tools/generate_scan_fixtures.py:202-222 | The in-place loops compute the specified outcome for rows of any lengths. |
| `SolverRuns.SquareIsSolved` | tools/generate_scan_fixtures.py:202-222 | On every square system that outcome is the elimination the theorems below are about. |
| `LinearSolver.SolutionIsUnique` | tools/generate_scan_fixtures.py:202-222 | Whenever something is returned it solves the original system, and nothing else does. |
| `LinearSolver.AcceptedIsRegular` | tools/generate_scan_fixtures.py:202-222 | A matrix that is accepted sends only zero to zero. |
| `LinearSolver.SingularIsRejected` | tools/generate_scan_fixtures.py:207-208 | Every singular matrix is rejected. |
| `LinearSolver.ZeroPivotMeansSingular` | tools/generate_scan_fixtures.py:207-208 | A rejection with a zero pivot is right: the matrix is singular. |
| `LinearSolver.RegularIffPivotsPositive` | tools/generate_scan_fixtures.py:206-221 | In every size a matrix sends only zero to zero if and only if every pivot of its elimination is positive. |
| `LinearSolver.AcceptedIffPivotsReach` | tools/generate_scan_fixtures.py:207-208 | In every size a system is accepted if and only if every pivot reaches the tolerance. |
| `LinearSolver.RegularButRejected` | tools/generate_scan_fixtures.py:207-208 | In every size a system with exactly one solution is rejected if and only if its pivots are positive and one is below the tolerance. |
| `LinearSolver.AcceptanceIgnoresValues` | tools/generate_scan_fixtures.py:202-222 | Whether a system is accepted depends on its matrix alone. |
| `LinearSolver.TinyDiagonalIsRejected` | tools/generate_scan_fixtures.py:207-208 | In every size there is a regular matrix that is rejected whatever its values. |
| `LinearSolver.CloseRowsAreRejected` | tools/generate_scan_fixtures.py:207-208 | Two equations with coefficients of ordinary size, one solution, and no result. |
| `Conditioning.BoundedInverseIsAccepted` | tools/generate_scan_fixtures.py:202-222 | In every size a matrix is accepted whenever it has a left inverse each of whose rows has magnitudes summing to less than one over the tolerance. |
| `SolverRuns.PerspectiveCoefficients` | tools/generate_scan_fixtures.py:225-236 | Builds two equations for each corner and solves them, for any number of corners; different numbers on the two sides are refused. |
| `SolverRuns.FiveCornersAreRefused` | tools/generate_scan_fixtures.py:225-236 | More than four corners never have coefficients. |
| `LinearSolver.CoefficientsMapCorners` | tools/generate_scan_fixtures.py:225-236 | Eight numbers satisfy the cross-multiplied homography equation at all four corners if and only if they are the coefficients returned. |
| `HomographyMaps.SingularIffNoDefect` | tools/generate_scan_fixtures.py:225-236 | For every four pairs of corners the system is singular if and only if one polynomial in areas of the corners is zero. |
| `HomographyMaps.DefectDecides` | tools/generate_scan_fixtures.py:225-236 | With that polynomial zero there are no coefficients; otherwise every pivot is positive, and there are coefficients exactly when every pivot reaches the tolerance. |
| `HomographyMaps.HorizonIsSentToInfinity` | tools/generate_scan_fixtures.py:239-247 | The map of a scene sends every corner of the scene to its corner of the page, none to infinity if no three are on a line, and its denominator is zero at the origin exactly when the horizon polynomial is: that is the line sent to infinity. |
| `HomographyMaps.PageIsRegular` | tools/generate_scan_fixtures.py:239-247 | A page of any size drawn into a scene has a regular system if and only if the horizon of the scene misses the origin. |
| `HomographyMaps.ConvexSceneIsRejected` | tools/generate_scan_fixtures.py:239-247 | A convex scene inside the picture that has no coefficients, whatever the size of the page. |
| `HomographyMaps.FixtureScenesAreRegular` | tools/generate_scan_fixtures.py:356-358 | Both scenes the fixtures draw have a regular system for every page size. |
| `FixtureScenes.FixtureScenesAreAccepted` | tools/generate_scan_fixtures.py:356-358 | Both systems of the page the fixtures draw are accepted, so their coefficients come back. |
| `PreviewCodec.NumberRoundTrip` | crates/a2d-ffi/src/preview_processing.rs:421-431 | Big-endian words of any width are read back. |
| `PreviewCodec.NumberStep` | crates/a2d-ffi/src/preview_processing.rs:421-431 | The value of a word is 256 times that of all but its last byte, plus that byte: the first byte is the most significant. |
| `PreviewCodec.HeaderLayout` | crates/a2d-ffi/src/preview_processing.rs:516-543 | Where the first fields of an encoded result are, byte by byte, and what they hold. |
| `PreviewCodec.BinaryWriter.constructor` | crates/a2d-ffi/src/preview_processing.rs:409-415 | Starts with the magic bytes and the codec version. |
| `PreviewCodec.BinaryWriter.U32` | crates/a2d-ffi/src/preview_processing.rs:421-423 | Appends the four bytes, most significant first. |
| `PreviewCodec.BinaryWriter.U64` | crates/a2d-ffi/src/preview_processing.rs:425-427 | Appends the eight bytes, most significant first. |
| `PreviewCodec.BinaryWriter.OptionalF64` | crates/a2d-ffi/src/preview_processing.rs:453-461 | Appends a presence byte and the number if there is one. |
| `PreviewCodec.BinaryWriter.OptionalU64` | crates/a2d-ffi/src/preview_processing.rs:463-471 | Appends a presence byte and the number if there is one. |
| `PreviewCodec.BinaryWriter.Length` | crates/a2d-ffi/src/preview_processing.rs:433-439 | Writes a length, or refuses exactly those that need more than 32 bits. |
| `PreviewCodec.BinaryWriter.RawBytes` | crates/a2d-ffi/src/preview_processing.rs:441-451 | Writes a length and the bytes, or refuses. |
| `PreviewCodec.EncodeMarkers` | crates/a2d-ffi/src/preview_processing.rs:488-503 | The nested loops append the encodings of the markers in order, or refuse exactly when some length does not fit. |
| `PreviewCodec.EncodeAnalysis` | crates/a2d-ffi/src/preview_processing.rs:478-514 | Appends the whole analysis, or refuses exactly when some length does not fit. |
| `PreviewCodec.EncodeResult` | crates/a2d-ffi/src/preview_processing.rs:516-543 | Returns the specified encoding, and is refused exactly when some length does not fit. |
| `PreviewReader.DecodeUndoesEncoding` | crates/a2d-ffi/src/preview_processing.rs:516-543 | A recursive-descent reader recovers every encodable result and consumes all its bytes. |
| `PreviewReader.EncodingIsInjective` | crates/a2d-ffi/src/preview_processing.rs:516-543 | Two results never share an encoding. |
| `PreviewReader.StrictReaderAccepts` | apps/android/app/src/main/kotlin/com/a2d/notebook/rustbridge/PolicyPreviewResultCodec.kt:3-35 | With the Android reader's limits, exactly the presentable results are accepted, and each is recovered. |
| `PreviewReader.ReadsAnalysis` | apps/android/app/src/main/kotlin/com/a2d/notebook/rustbridge/PolicyPreviewAnalysisCodec.kt:3-63 | The reader takes an analysis off the front of any bytes, or refuses it for exactly the limits stated. |
| `PreviewReader.ReadsRgb` | apps/android/app/src/main/kotlin/com/a2d/notebook/rustbridge/PolicyPreviewRgbCodec.kt:3-16 | An image is accepted exactly when its byte count is three times its area and within the limits. |
| `QrCodes.SplitJoin` | crates/a2d-identity/src/qr.rs:214-214 | Splitting at colons undoes joining colon-free fields. |
| `QrCodes.JoinSplit` | crates/a2d-identity/src/qr.rs:214-214 | Joining undoes splitting, and the fields are colon-free. |
| `QrCodes.NumberField` | crates/a2d-identity/src/qr.rs:146-166 | A number field is accepted exactly when it is the decimal text of a number of at most 999999. |
| `QrCodes.IdField` | crates/a2d-identity/src/qr.rs:190-296 | An identifier field is accepted exactly when it is the text of that identifier. |
| `QrCodes.PayloadsAreCanonical` | crates/a2d-identity/src/qr.rs:91-296 | A payload is read as a code if and only if it is that code's own encoding and the layout is known. |
| `QrCodes.PayloadText` | crates/a2d-identity/src/qr.rs:91-128 | The text of every code, spelled out field by field up to its checksum. |
| `QrCodes.LayoutsAreBounded` | crates/a2d-identity/src/qr.rs:168-181 | Whatever is read as a page code names a known layout of one to twenty capital letters, digits and dashes. |
| `QrCodes.RefusalsAreRight` | crates/a2d-identity/src/qr.rs:190-296 | Whatever payload is refused, the error names something that is wrong with it. |
| `PageCodes.EncodeIsInjective` | crates/a2d-identity/src/qr.rs:91-128 | Two codes with valid layouts never share a text. |
| `PageCodes.StoredCodeParses` | crates/a2d-core/src/page_code_projection.rs:13-45 | The stored code of every page exists, and parses back to that page's code exactly when the build knows its layout. |
| `PageCodes.NotebookCodeRoundTrip` | crates/a2d-core/src/milestone6.rs:361-505 | The stored code of a notebook page, with its notebook confirmed, resolves to exactly that page if and only if the notebook is not archived and the layout is known; any other outcome is an error. |
| `PageCodes.ForeignCodeIsUnsupported` | crates/a2d-core/src/milestone6.rs:394-424 | A notebook page code is unsupported exactly when no design is available under its id, or the page is not one that design prints. |
| `PageCodes.ConfirmedCodeMeans` | crates/a2d-core/src/milestone6.rs:426-505 | With a notebook confirmed: an unknown one is not found, one of another design conflicts, an archived one is refused, and any other gets its page of that number. |
| `PageCodes.ActiveCodeMeans` | crates/a2d-core/src/milestone6.rs:426-505 | Without a confirmation the active notebook decides: its page if it has the printed design, and otherwise a conflict that names both. |
| `PageCodes.InactiveCodeMeans` | crates/a2d-core/src/milestone6.rs:445-505 | With none active, the only notebook of the design that is not archived gets its page; none asks for a registration, and several for a choice between exactly those. |
| `PageCodes.SmartCodeMeans` | crates/a2d-core/src/milestone6.rs:376-393 | A smart page code resolves to the page of that id, and otherwise to an unknown page with what the code says. |
| `PageCodes.SmartCodeRoundTrip` | crates/a2d-core/src/milestone6.rs:361-505 | The stored code of a smart page resolves to exactly that page if and only if the layout is known. |
| `PageCodes.SlotsAreNeverMissing` | crates/a2d-core/src/milestone6.rs:361-505 | No payload and no confirmation ever meets the missing-slot error. |
| `PageCodes.NotebookTargetsAreResolutions` | crates/a2d-core/src/milestone9.rs:917-975 | With its notebook confirmed, a code resolves to a stored page if and only if it passes the check registration makes on that page and the notebook is not archived. |
| `PageCodes.TargetIsOwnCode` | crates/a2d-core/src/milestone9.rs:917-975 | The check registration makes accepts a code exactly for the page whose own code it is, with the notebook of that page active, or with none for a smart page; a missing notebook has its own error. |
| `PageCodes.ResolvedSmartPageIsTarget` | crates/a2d-core/src/milestone9.rs:917-975 | A code that resolves to a smart page passes the check if and only if it is that page's own stored code. |
| `PageCodes.AlteredCopyResolves` | crates/a2d-core/src/milestone6.rs:361-505 | Every smart page with a known layout has an altered copy of its code that resolves to it and is refused as a target. |
| `PageCodes.SomeCopyResolves` | crates/a2d-core/src/milestone6.rs:361-505 | There are a library and a code like that, whatever the checksum. |
| `NotebookLibrary.Library.SetupDesign` | crates/a2d-core/src/milestone6.rs:179-214 | A setup code gives an available design that is not revoked. |
| `NotebookLibrary.Library.CheckCreation` | crates/a2d-core/src/milestone6.rs:224-275 | The design of the payload, agreeing with any stored design of that id, and a name that is not blank and at most 200 bytes. |
| `NotebookLibrary.Library.AddNotebook` | crates/a2d-core/src/milestone6.rs:262-287 | The transaction adds the design, the notebook and one page for every number, and keeps every rule of the library. |
| `NotebookLibrary.Library.CreateNotebook` | crates/a2d-core/src/milestone6.rs:224-295 | On success the new notebook of the printed design has pages numbered from one, and is the only active one if asked; on failure nothing changed. It fails exactly for a payload that is no usable setup code, with the error for what is wrong with it, or for a blank name or one of more than 200 bytes. |
| `NotebookLibrary.Library.Activate` | crates/a2d-core/src/milestone6.rs:341-351 | Exactly the chosen notebook is active, and only the flag and the time of a notebook change. |
| `NotebookLibrary.Library.SetActiveNotebook` | crates/a2d-core/src/milestone6.rs:341-351 | As Activate; an archived notebook is refused. |
| `NotebookLibrary.Library.RenameNotebook` | crates/a2d-domain/src/entities.rs:196-213 | The notebook gets the trimmed name, or nothing changes; it is refused exactly if there is no such notebook, or the name is blank or more than 200 bytes long. |
| `NotebookLibrary.Library.ArchiveNotebook` | crates/a2d-core/src/milestone6.rs:311-319 | The notebook is archived and no longer active; archiving again changes nothing. |
| `NotebookLibrary.Library.RegisterPageSet` | crates/a2d-core/src/lib.rs:172-273 | Adds smart pages with consecutive visible numbers, or refuses an empty set and numbers a code cannot print. |
| `NotebookLibrary.Library.ResolveNotebookCode` | crates/a2d-core/src/milestone6.rs:394-505 | The branches for a notebook page code compute the resolution the laws about codes are about. |
| `NotebookLibrary.Library.ResolvePageCode` | crates/a2d-core/src/milestone6.rs:361-505 | The matching over lookups computes the specified resolution and never meets a missing slot. |
| `NotebookLibrary.Library.StoredPageCodePayload` | crates/a2d-core/src/page_code_projection.rs:13-45 | Every stored page has a payload. |
| `Texts.Trimmed` | crates/a2d-domain/src/entities.rs:197-203 | Empty exactly for a blank text, and without white space at either end. |
| `Texts.TrimmedIsTheMiddle` | crates/a2d-domain/src/entities.rs:197-203 | What is stripped on either side is white space, and what is left is the middle of the text. |
| `Texts.Utf8LengthAdds` | crates/a2d-domain/src/entities.rs:196-213 | The length in bytes adds up over the characters, each one to four bytes by its code point. |

## Left out

- SolverRuns.SolveLinear: numbers are reals, so rounding is not modelled.
- RegistrationPhotos.PhotosAreKept: the preview screen and the camera are one platform that writes and deletes staging files; which of its handlers does so is left out, and so is a photo for which no record was ever filed.
- ScanCore.Core.RegisterScan: image decoding, marker detection, rectification and the quality measures are one result that may fail; warnings and the audit event are left out, and the page code check before it is modelled separately as `PageCodes.ValidateTarget`.
- ScanCore.Core.CheckRequest: path canonicalisation, symbolic links, file types and the repeated checks inside the transaction are left out, because nothing else writes between the two.
- ScanCore.Core.BeginScannerRecovery: the layout and path texts are taken as given, and record size limits are not modelled.
- ScanCore.Core.ListScannerRecoveries: the records are a map, so the order of the list, by update time, is left out.
- BatchScanner.RegisterBatchScan: review items are ids that creation may fail to give; their contents are left out.
- RecordCodec.SessionRoundTrip: JSON is a value tree; its text and the size limits are left out, and numbers have to fit the width of their Rust type.
- RecordWriter.RecordDirectory.Replace: one record file at a time, as the protocol never touches two.
- OcrTheorems.CommitsAreAtomic: about runs written by finalize; a job closed by complete names a run another call recorded.
- OcrTheorems.QueueIsBounded: manual retry has no capacity check, which is why the bound counts the retries.
- OcrQueue.RegionsInBounds: region coordinates are reals, so the conversion of the source size to a 32-bit float is not modelled.
- PreviewCodec.EncodeResult: floating point numbers are opaque eight-byte words, and strings are bytes; UTF-8 validity is not checked by the reader.
- PreviewReader.StrictReaderAccepts: the reader is the Kotlin one of the policy preview, whose encoder writes the same format; the comparison with the expected policy is left out.
- QrCodes.PayloadsAreCanonical: the CRC-32C is a parameter, any function from texts to 32-bit numbers, so nothing is claimed about which alterations it detects.
- NotebookLibrary.Library.CreateNotebook: colour, icon and notes of a notebook are left out, as are the signatures of a design; only its id, hash, trust, layouts and page count are kept.
- Searching, review listing, version history, scan comparison, the page viewer and PDF generation: projections and single checks over tables.
- Migrations, full-text search, asset hashing and the FFI buffers: foreign code or storage the model treats as atomic.
- Fixture drawing, manifest verification and the APK scripts: input and output.
