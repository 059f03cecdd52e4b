# TwextHub: a verified model

TwextHub is an extension registry: an Express service over Postgres and a
content-addressed data directory. This project models the parts of it that carry
a protocol, a ledger, an order or a bound, and proves what they promise.

- **The store** (`StoreProtocol`, `StoreProgress`, `StoreLocks`, `BlobStore`). Publishers, image uploads, row
  deletions, removals, the sweeper and the boot reconcile as interleaved steps
  under the shared and exclusive advisory lock, with a crash possible between any
  two. `StoreProgress` says what each step does and that publishes, uploads and
  removals get where they are going. `StoreLocks` is what the lock keeps however
  long anything takes. `BlobStore` runs the same file operations one at a time.
- **The registry** (`Registry`, `Outcomes`, `RegistryRuns`, `RegistryService`,
  `PublishRuns`, `Reconcile`, `Ledger`, `Quotas`, `Redirects`, `Flights`,
  `Transfers`, `Moderation`, `VersionRules`, `Health`, `Scenarios`). `Registry`
  gives each transaction its meaning on the tables, and `Outcomes` tells the same
  row by row: which condition gets which error, and what every row, account,
  redirect and offer is afterwards. `RegistryService` runs the statements, is proved to have
  that meaning, and keeps the tables in the state `Health` names. `RegistryRuns`
  interleaves transactions, with a publish as its separate transactions, and keeps
  the history the whole-run properties are stated against.
- **Webhook deliveries** (`Deliveries`, `DeliveryLease`). The claim, attempt and
  record statements, and any number of workers with their own clocks.
- **Pages** (`Sorting`, `Bounds`, `KeysetPages`, `Keyset`, `OffsetPages`). The page
  assembly, the four sorts with their cursor conditions, and the walks their links
  make.
- **The build log** (`BuildLog`, `Utf8`, `Decimal`, `JsText`). A streaming tail
  that never splits a character, and the loop whose marker prints its own count.
- **Owners, downloads, limits** (`OrgOwners`, `Downloads`, `RateLimit`,
  `LoginLimit`).

A table is a map or a sequence of rows, a `sql.begin` block is one transaction, an
advisory or row lock is explicit state where interleaving matters, and SHA-256 is
injective. The clock, an attempt's result, the compiler's output and the order of
steps are inputs.

## Where the code stops keeping a promise

Each of these names a concrete run or input first, and then the exact condition
under which the property does hold.

- A removal that takes longer than the hour the reconcile waits, less the length
  of a staging transaction, can unlink the bytes of a version the reconcile has
  just settled (`StoreProtocol.SlowRemovalLosesLiveBytes`,
  `StoreProtocol.SafeExactlyWhenRemovalsFit`).
- Deleting an account leaves co-owners' rows in its namespace. Whoever signs up
  under that name next starts at zero bytes over them
  (`Quotas.SignupCanUnbalance`, `Ledger.NextStepBalancesExactly`).
- An admin can offer what such an account left behind, and the offer is recorded,
  but it cannot be accepted: telling the sender fails, and the move with it
  (`Transfers.OrphanIsOfferedInVain`, `Transfers.OfferedExactlyWhenAcceptable`).
- If one of those rows is still staging, the reconcile promotes it by the trust of
  whoever has the name by then (`Moderation.LeftoverStagingSlipsThrough`,
  `Moderation.UnvouchedExactlyBySlipping`).
- Promotion goes by row id and does not look at the status. A publish that stalls
  until a reconcile has settled its row and a transfer has moved it promotes the
  row at an address it was not staged at
  (`Flights.StalledPublishLandsElsewhere`, `Flights.PromotionLandsExactly`).
- Somebody made an owner between the check and the cascade of their own account's
  deletion can leave an organization with no owner
  (`OrgOwners.OverlapLeavesNoOwner`, `OrgOwners.CascadeIsSafeExactly`).
- A transfer into an address that still holds rejected versions can leave a
  version there twice (`VersionRules.RejectedVersionIsRepeated`,
  `VersionRules.TransferKeepsVersionsExactly`).
- A sweep's unlink goes by digest: a file in a directory whose name is not two
  characters long stays, and another file may go in its place
  (`BlobStore.AnotherFileIsTaken`, `BlobStore.Store.GcBlobs`).

The number a capped log prints also counts the line break joining the two streams
and does not count trimmed white space; `BuildLog.BuildOutput.Log` says exactly
what it counts.

## Model

| member | source | states |
|---|---|---|
| StoreProtocol.LiveBytesStay | src/blobs.js:48-133 | From an empty database over left-over files that hash to their names, every interleaving with crashes keeps each settled version's blob on disk, and with it every image and named source, when a removal and a staging transaction together fit in an hour (that a promotion settles its row, for good, is `StoreProgress.PromotedStaysSettled`) |
| StoreLocks.NamedSourcesStay | src/sources.js:16-47 | Every row that names a source, staging rows included, has its file under a name its content hashes to in every interleaved state with crashes, with no bound on how long anything takes |
| StoreLocks.ProfileImagesStay | src/profile-images.js:161-177 | So has every avatar and banner |
| StoreLocks.LocksStayRespected | src/blobs.js:105-112 | No step puts a removal beside another removal or beside a holder of the shared lock |
| StoreProtocol.SafeExactlyWhenRemovalsFit | src/db.js:60-67 | No run loses live bytes if and only if the removal and staging bounds add up to at most an hour |
| StoreProtocol.SlowRemovalLosesLiveBytes | src/db.js:60-82 | Past that bound there is a run from an empty database in which a settled version loses its file |
| StoreProtocol.StepKeepsInv | src/routes/packages.js:1452-1579 | Every step of every process keeps the invariant: locks exclude, a removal past its check meets only rows staged since, and each open transaction's bytes are where it put them |
| StoreProtocol.UnlinkBlobKeepsInv | src/blobs.js:105-133 | The unlink takes a file no settled row, profile pointer, shared-lock holder or open reconcile counts on |
| StoreProtocol.UnlinkSourceKeepsInv | src/sources.js:33-47 | The same for a source file and every row that names one, staging rows included |
| StoreProtocol.CommitSourceKeepsInv | src/routes/packages.js:1537-1548 | Naming the source happens only with its file in place and no removal beside it |
| StoreProtocol.CommitPromotionKeepsInv | src/routes/packages.js:1549-1575 | The promotion leaves its row settled and naming the blob it named, with that blob on disk, and keeps every live file |
| StoreProtocol.CommitPointerKeepsInv | src/profile-images.js:161-177 | A committed avatar or banner pointer has its file |
| StoreProtocol.CommitReconcileKeepsInv | src/db.js:58-99 | What a reconcile found complete is still complete when it commits, although it looked without the lock |
| StoreProtocol.FreshRowsAreNotAged | src/db.js:60-63 | A digest an open removal may still unlink is not that of any row an open reconcile has read |
| StoreProgress.StagingAdds | src/routes/packages.js:1485-1530 | The staging transaction leaves exactly one row more: staging, without a source, naming the code's digest, dated by the start of the transaction |
| StoreProgress.CommitNamesTheSource | src/routes/packages.js:1537-1548 | The second transaction names the tarball's digest on its own row and changes nothing else |
| StoreProgress.PromotionSettles | src/routes/packages.js:1549-1575 | After the promotion commits its row is not staging, names the blob and source it named, and every other row is as it was |
| StoreProgress.CheckDecides | src/blobs.js:105-133 | A removal goes on past its check if and only if no row, and for a blob no profile pointer, names its digest |
| StoreProgress.LocksAreGranted | src/blobs.js:90-112 | The shared lock is granted exactly while no removal is open, the exclusive one while also no publish or upload is between its lock and its commit |
| StoreProgress.CrashesAnywhere | src/db.js:58-63 | A process can stop at any step; its locks go and what it wrote stays |
| StoreProgress.ReconcileReads | src/db.js:58-63 | A reconcile reads exactly the staging rows older than 3600000 milliseconds |
| StoreProgress.ReconcileDecides | src/db.js:64-82 | It finds a row complete exactly when its blob is there, and its source if it names one |
| StoreProgress.ReconcileSettlesAndDrops | src/db.js:83-98 | It settles what it found complete, drops what it did not, and leaves every row it did not read |
| StoreProgress.PromotedStaysSettled | src/routes/packages.js:1553-1559 | Once a publish has committed its promotion, its row is settled with the same blob in every later state that still has it, whatever runs in between |
| StoreProgress.PublishCanFinish | src/routes/packages.js:1452-1579 | From any state with no removal open, every start included, a whole publish run exists that ends with a settled row naming both digests and both files on disk with the bytes published |
| StoreProgress.UploadCanFinish | src/profile-images.js:161-177 | So does one of an image upload, ending with the pointer set and the image on disk |
| StoreProgress.RemovalCanFinish | src/blobs.js:105-133 | With no lock held, a removal of a blob nothing names takes that file and nothing else |
| BlobStore.Store.StoreBlob | src/blobs.js:48-73 | Touched in place or staged and renamed, the store ends as before with this blob's bytes at its path, dated now, and no staged copy left |
| BlobStore.Store.RemoveBlobIfUnused | src/blobs.js:105-133 | Returns true exactly when the file was there and no other version and no profile image names it; removes that file and nothing else |
| BlobStore.Store.ReferencedDigests | src/maintenance.js:19-36 | The sweep's starting set is exactly what versions, avatars and banners name |
| BlobStore.Store.SweepShard | src/maintenance.js:54-68 | One directory, whatever its name: what goes was old, named by nothing and in a two-character directory, and of what the sweep has been past only files in other directories wrongly stay |
| BlobStore.Store.GcBlobs | src/maintenance.js:9-71 | A sweep on its own returns how many files it removed and never takes one something names; what it takes is in a two-character directory and shares its digest with a file an hour old; and it leaves exactly the named and the young files if and only if every file it should take is in a two-character directory |
| BlobStore.AnotherFileIsTaken | src/blobs.js:36-38 | A name in a three-character directory whose digest leads to a file in another |
| RegistryService.SumCharges | src/transfer.js:47-52 | The accumulated bytes are the sum of blob and source sizes |
| RegistryService.Ceiling | src/util.js:27-34 | The loop finds the highest version: a version passes the publish check exactly when it exceeds all existing ones |
| RegistryService.Store.StagePublish | src/routes/packages.js:1458-1530 | The staging transaction has the effect `Registry.StageVersion` gives it and keeps the tables healthy; a publish is too large only when it exceeds the account's own limit, or without one the configured limit, or without either 67108864 bytes, and one that exceeds it is refused; on success the version is above every one at an address that is no redirect; a refusal after the insert undoes it |
| RegistryService.Store.Promote | src/routes/packages.js:1549-1578 | Exactly the row with the id changes, in its status alone, and one promoted to pending is its publisher's only version waiting |
| RegistryService.Store.Delete | src/routes/packages.js:1336-1376 | Exactly the rows at the address go, no staging row among them, with their charge and exactly the offers of that extension, or everything stays |
| RegistryService.Store.Review | src/routes/packages.js:576-653 | Exactly one version changes, one that was pending, and an approval leaves its namespace's account trusted |
| RegistryService.Store.Relabel | src/routes/packages.js:532-551 | Only a published or deprecated version is relabelled; it gets the status asked for, and nothing else changes |
| RegistryService.Store.Offer | src/transfer.js:118-165 | An offer is recorded exactly when its conditions hold, the recipient's room by its own limit among them; it could be accepted at once if and only if its namespace has an account |
| RegistryService.Store.Withdraw | src/transfer.js:167-182 | Exactly the named offer goes, or nothing does |
| RegistryService.Store.PointAt | src/transfer.js:280-290 | Upsert then update leaves every pointer at the old address, and the old address itself, at the new one |
| RegistryService.Store.MoveCharge | src/transfer.js:260-266 | The two balance updates, skipped for nothing, are a refund and a credit |
| RegistryService.Store.Accept | src/transfer.js:190-320 | The statements in order amount to the move and keep the tables healthy; it goes through exactly when the offer, the extension, both accounts, the destination and the room are there; of the open offers exactly those stay that neither start nor end at a redirect by then; a refusal after the offer was deleted brings it back, and a sender without an account undoes everything |
| RegistryService.Store.CloseAccount | src/routes/users.js:346-363 | Other namespaces are refunded what the account's versions charged them, exactly its rows and the offers it made go with it, unless an owner row still names it, which undoes the refunds |
| RegistryService.Store.CloseOrganization | src/routes/orgs.js:213-241 | Exactly the namespace's rows, its offers either way or made by it, and its redirects either way go with the account |
| RegistryService.Store.Settle | src/db.js:64-98 | One aged row is promoted by its namespace's trust, or dropped and refunded |
| RegistryService.Store.ReconcileOnBoot | src/db.js:58-99 | The loop over the snapshot is the fold of its single-row meaning |
| Reconcile.ReconcileIsOnePass | src/db.js:58-99 | That fold is one pass over the table: each aged staging row is settled once by its own files and namespace, every other row is as it was |
| Reconcile.BootSettlesEachRow | src/db.js:58-99 | After a boot an aged staging row with its files is published or pending by its namespace's trust, one with a file missing is gone, and any other row is as it was |
| Health.TxKeepsHealth | src/transfer.js:190-298 | Every transaction keeps the schema, the balanced books, collapsed redirects with nothing published at them, live offers, one waiting version per publisher and no version pushed twice |
| Health.HealthMeans | src/transfer.js:190-298 | What that is good for: balances equal the namespace's bytes, redirects neither chain nor cover a version, open offers are between two live addresses, and no publisher waits or pushes twice |
| Outcomes.Opens | src/routes/users.js:66-83 | A namespace is claimed once, by an account nobody trusts, with no bytes, no limit of its own and a number never used before |
| Outcomes.Limits | src/routes/admin.js:154-170 | An admin's limit replaces or clears the account's own and touches nothing else; zero and less are refused |
| Outcomes.StagesExactly | src/routes/packages.js:1458-1528 | Which publish is refused with which error, in order, by the rows, redirects and accounts there are and the room by the account's own limit, the configured one or 64 MiB |
| Outcomes.StagingChanges | src/routes/packages.js:1485-1528 | A staged publish adds one row with its publisher, address, version and sizes, and its bytes to the account of its namespace alone |
| Outcomes.Promotes | src/routes/packages.js:1549-1578 | A promotion is refused when its row is gone, or to pending beside another version its publisher has waiting; otherwise its row gets its status |
| Outcomes.Reviews | src/routes/packages.js:576-653 | A review decides a pending version and no other, and an approval leaves the account of its namespace trusted |
| Outcomes.Relabels | src/routes/packages.js:693-702 | Deprecating, restoring and yanking apply to a published or deprecated version and to no other |
| Outcomes.Deletes | src/routes/packages.js:1336-1376 | A delete is refused without versions or with one staging; otherwise it takes the extension's rows and offers and its bytes off the account, never below zero |
| Outcomes.ReconcilesExactly | src/db.js:64-82 | A whole staging row is published for a trusted account and pending otherwise; no other row is reconciled |
| Outcomes.ReconcileDrops | src/db.js:83-98 | One with a file missing is dropped and its bytes given back, never below zero |
| Outcomes.OffersExactly | src/transfer.js:118-153 | Which offer is refused with which error, and that one which is made is all that changes |
| Outcomes.AcceptsExactly | src/transfer.js:190-228 | Which acceptance is refused with which error, only rejected versions allowed at the destination |
| Outcomes.AcceptanceMoves | src/transfer.js:229-298 | Exactly the versions at the address change, in their address alone; the old address and whatever led there lead to the new one; exactly the stale offers go |
| Outcomes.AcceptanceCharges | src/transfer.js:260-266 | The bytes at the address go off the sender, never below zero, and onto the recipient, and no account changes otherwise |
| Outcomes.ClosesAccount | src/routes/users.js:346-363 | Who can be deleted, and that exactly the account, its versions and its offers go |
| Outcomes.ClosingRefunds | src/routes/users.js:352-362 | Each other namespace gets back the bytes of the versions the account published there, never below zero |
| Outcomes.ClosesOrganization | src/routes/orgs.js:213-241 | An organization takes its namespace's versions, its own, and every redirect and offer that names it, and nothing else |
| RegistryRuns.TxKeepsWellFormed | src/routes/packages.js:1485-1500 | Every transaction keeps row ids distinct, publishers existing people, and offers between different namespaces |
| RegistryRuns.DoKeepsSound | src/routes/packages.js:1424-1450 | So does every operation of a run, with publishes held open across other transactions |
| PublishRuns.LoadReads | src/routes/packages.js:1424-1450 | A publish begins by reading its namespace's account and trust, for a signed-in person, and changes nothing |
| PublishRuns.TrustAsReadDecides | src/routes/packages.js:1553-1559 | Whatever runs in between, the version is promoted to published if the account was trusted when it was read, and to pending if not |
| PublishRuns.PublishCanFinish | src/routes/packages.js:1452-1579 | In every reachable registry a publish whose checks pass ends with its version at its address, published for a trusted account and pending otherwise, and no other row changed |
| Ledger.BooksBalance | src/routes/packages.js:1506-1528 | In every reachable registry whose signups find no bytes under their name, each account is charged exactly the bytes of the rows in its namespace |
| Ledger.TxKeepsBalance | src/db.js:83-93 | Publish, review, relabel, delete, transfer, account and organization deletion, promotion and reconcile each keep the books balanced |
| Ledger.RefundsAreCovered | src/routes/packages.js:1363-1375 | A refund never exceeds the balance, so the GREATEST clamps never clip |
| Ledger.AccountChargeChange | src/transfer.js:260-266 | Each account moves by exactly what the transaction charges and refunds it |
| Ledger.RowChargeChange | src/transfer.js:240-245 | The rows of each namespace change by the same amount |
| Ledger.ChargeMoves | src/transfer.js:240-245 | Moving an extension's rows takes their bytes from one namespace's sum to the other's |
| Ledger.DissolvingKeepsBalance | src/routes/orgs.js:213-241 | Deleting an organization without refunds is right: it publishes nowhere else and its own account goes too |
| Ledger.NextStepBalancesExactly | src/routes/users.js:353-362 | In such a registry the next step, whatever it is, keeps the books balanced if and only if it is not a signup over bytes left under the name |
| Quotas.CommittedChargeFits | src/routes/packages.js:1512-1528 | A publish or accepted transfer that commits leaves the account it charged within its own limit, or without one the configured limit, or without either 67108864 bytes |
| Quotas.RunStaysWithinQuota | src/transfer.js:215-227 | Over any run in which no limit is set below current use, no account exceeds its quota, sibling publishes included |
| Quotas.NextStepFitsExactly | src/transfer.js:41-43 | Everyone being within quota, the next step keeps it so if and only if it does not set a limit below what its account holds |
| Quotas.OwnLimitDecides | src/transfer.js:41-43 | From when an admin gives an account a limit that covers its use until the limit is set again, over any run, it never holds more, and no publish that fits is too large, whatever the configuration says |
| Quotas.TransferConserves | src/transfer.js:260-266 | Every accepted transfer that commits keeps the total charge over all accounts |
| Quotas.SignupCanUnbalance | src/routes/users.js:352-362 | A reachable balanced registry and a signup that unbalances it |
| Redirects.OneLookupIsTheWholeHistory | src/transfer.js:350-357 | After any run one redirect lookup equals folding the whole log of moves from that address, and there is a redirect exactly when the log leads elsewhere |
| Redirects.RedirectsLeadToRealAddresses | src/transfer.js:276-290 | No redirect's target is a redirect, and no version sits at a redirect's source |
| Redirects.AcceptingKeepsInv | src/transfer.js:276-290 | The collapse is the log plus one entry, because the destination was checked not to be a redirect |
| Redirects.DissolvingKeepsInv | src/routes/orgs.js:234-237 | Dropping an organization's redirects is the log plus its dissolution |
| Redirects.OpenOffersAreNotStale | src/transfer.js:292-298 | After any run an open offer's source and destination are not redirects |
| Redirects.OffersLeftOpen | src/transfer.js:292-298 | An acceptance over open offers leaves exactly those whose source and destination are no redirects afterwards: the two deletes take the offers that would be stale and no others |
| Transfers.OfferedExactlyWhenAcceptable | src/transfer.js:118-153 | An offer is recorded, by a namespace that has an account, if and only if it could be accepted on the spot |
| Transfers.OrphansAreNotAccepted | src/transfer.js:303-310 | Nothing is accepted out of a namespace without an account |
| Transfers.OrphanIsOfferedInVain | src/transfer.js:150-163 | A run that records an offer nobody can accept |
| Transfers.RedirectedAddressIsClosed | src/routes/packages.js:1462-1464 | In every reachable registry a redirected address refuses publishes, deletes, offers and acceptances at either end |
| Flights.StagingRowsAreLeftAlone | src/routes/packages.js:1347-1349 | No transfer and no delete takes a staging row; it stays as it is if and only if the transaction is not its own promotion, a reconcile of it, or the end of its publisher's account or its organization |
| Flights.StagedRowStays | src/transfer.js:205-212 | Over any run without one of those a staged row stays in the table as it was staged |
| Flights.StagingRowGoesOnlyBy | src/db.js:83-93 | In every reachable registry a staging row leaves the table only by a reconcile that finds a file missing or with one of those accounts |
| Flights.StagingRowsStayPut | src/routes/packages.js:1485-1500 | Conversely, the staging rows after a transaction are staging rows from before it, unchanged, or the one it has just staged |
| Flights.PromotedWhereStaged | src/routes/packages.js:1549-1579 | After any run, promoting a row still staging leaves it at the address it was staged at, which is not a redirect |
| Flights.PromotionLandsExactly | src/routes/packages.js:1553-1559 | After any run, whatever the row's status, while its owner's account exists a promotion lands where the address leads, and so at the address it was staged at if and only if that is no redirect |
| Flights.StalledPublishLandsElsewhere | src/routes/packages.js:1553-1559 | A run in which the row was settled and moved first, and the promotion applies at another address |
| Moderation.UnvouchedExactlyBySlipping | src/db.js:69-79 | After any run at all, the next step makes a version public that nothing vouches for if and only if it reconciles a complete staging row whose namespace has a trusted account while the account it was staged into was never approved |
| Moderation.NothingPublicUnvouched | src/routes/packages.js:630-653 | Over every run without such a step, a version that is or ever was public was approved, or staged into an account an admin had approved a version for |
| Moderation.CleanSignupsLetNoneSlip | src/db.js:69-79 | Signups that find no staging row left under their name rule such steps out |
| Moderation.TrustIsApproval | src/routes/packages.js:637-642 | After any run an account is trusted exactly when an admin approved a version for it, and what was approved has been public |
| Moderation.HistoryNotes | src/routes/packages.js:637-642 | What the properties here call public, approved, staged into and moved: the versions published, deprecated or yanked after a step, the version an admin approved, the account a version was staged into, and every accepted transfer and dissolved organization |
| Moderation.VouchedBeforePublic | src/routes/packages.js:1450 | What first makes a version public is its own approval, or finds its account approved already, or is such a step |
| Moderation.OnlyApprovalCreatesTrust | src/transfer.js:268-274 | An account becomes trusted by the approval of a version in its namespace and by no transfer, publish or reconcile |
| Moderation.LeftoverStagingSlipsThrough | src/db.js:69-79 | A run in which a left-over staging row becomes public with nobody vouching for it |
| VersionRules.PublishersTakeTurns | src/routes/packages.js:1466-1472 | After any run no publisher has two versions staging or pending, and none has pushed a version of an id twice, wherever it has moved |
| VersionRules.AddressesHoldAVersionOnce | src/routes/packages.js:1474-1483 | After any run whose transfers move in no version a rejected one left there, no address holds a version twice |
| VersionRules.TransferKeepsVersionsExactly | src/transfer.js:94-101 | A transfer keeps that if and only if nothing that moves in is among the rejected versions at the destination |
| VersionRules.RejectedVersionIsRepeated | src/transfer.js:94-101 | A run after which an address holds a rejected version and the same version moved in |
| Deliveries.DeliveryTable.ClaimDue | src/webhooks.js:296-316 | Claims distinct rows: pending or retrying without a deadline, or unfinished with one that has come, of a lapsed lease too; rows without a deadline before those with one, the earliest first; if fewer than the batch, every row left is delivered, failed or has a later deadline; the claimed are stamped 60000 milliseconds on and no other row changes |
| Deliveries.DeliveryTable.RecordOutcome | src/webhooks.js:397-420 | A result changes the row only while its own lease is on it: delivered, failed when the attempts are used up, or retrying 5 seconds, 30 seconds or 5 minutes later |
| Deliveries.DeliveryTable.DeliverOne | src/webhooks.js:330-337 | One turn claims and settles one due row, or finds nothing due |
| Deliveries.DeliveryTable.DeliverDue | src/webhooks.js:328-339 | A pass alone adds one attempt per result, leaves other rows alone, and stops before 50 only when every row is delivered, failed or has a later deadline |
| DeliveryLease.Fencing | src/webhooks.js:381-420 | Under any clock skew, deadlines stamped by successive claims strictly increase, recorded outcomes follow claim order, and the attempt counter is their number, at most the maximum |
| DeliveryLease.OnlyTheNewestClaimRecords | src/webhooks.js:406-420 | Only the newest claim can change the row, and if it holds the row it does |
| DeliveryLease.TerminalIsAbsorbing | src/webhooks.js:299-303 | A delivered or failed row never changes again, except to be removed |
| DeliveryLease.NeverTwoOpenAttempts | src/webhooks.js:318-339 | With one clock and attempts inside their lease, a delivery never has two open attempts |
| DeliveryLease.RetryWaitsOutItsDelay | src/webhooks.js:397-415 | A retry is claimed no earlier than its delay after the attempt before it ended |
| DeliveryLease.ClaimableExactly | src/webhooks.js:293-303 | After any run a row can be claimed by a worker's clock reading if and only if it is neither delivered nor failed and has no deadline or one that reading has reached |
| DeliveryLease.AttemptsEnd | src/webhooks.js:397-420 | An attempt ends at its own worker's clock and is recorded at most once, with an effect exactly while the row carries its deadline |
| DeliveryLease.AttemptCanFinish | src/webhooks.js:381-420 | Undisturbed, a claimed attempt delivers, schedules the retry of its number, or fails when the attempts are used up |
| Keyset.CursorConditionIsStrictlyAfter | src/routes/discovery.js:56-77 | For every sort and direction the filter is exactly "strictly after the cursor's row", by publication, update, downloads or name and then namespace and id, and the cursor carries that column |
| Keyset.BeforeIsTotalOrder | src/routes/discovery.js:79-91 | Each displayed order decides every two addresses, and the back order is its mirror image |
| Keyset.RegistryListingIsSound | src/routes/discovery.js:131-173 | The listing meets what the page theorems ask of a collection |
| Keyset.RegistryWalk | src/routes/discovery.js:131-201 | Along a walk publication times, update times or downloads never rise and names never fall, ties going by namespace and id; a finished one has shown each extension once, and each prev serves the page before |
| Keyset.PendingQueueIsSound | src/routes/discovery.js:758-792 | So does the review queue, keyed on microseconds and id |
| Keyset.QueueWalk | src/routes/discovery.js:758-792 | Following the queue shows every pending version once, the longest waiting first, and each prev serves the page before |
| KeysetPages.NextPage | src/pagination.js:108-126 | The next link serves the rows right after the page, with its links |
| KeysetPages.PreviousPage | src/pagination.js:108-126 | The prev link serves the rows right before the page, in display order |
| KeysetPages.LastPage | src/pagination.js:36-43 | Asking back without a cursor opens on the last rows |
| KeysetPages.WalkVisitsEveryRowOnce | src/pagination.js:92-126 | Following next from the head shows the whole sorted list once and cannot outrun its rows |
| KeysetPages.CompleteWalkExists | src/pagination.js:113-123 | Every walk extends to one that ends |
| KeysetPages.PrevRetracesTheWalk | src/pagination.js:113-123 | Following prev from any page of a walk serves the page before it, link for link, and the first page has none |
| OffsetPages.ParseLimit | src/pagination.js:26-34 | Without a limit the default; otherwise a trimmed string of digits worth at least one, capped at the maximum, or the request is refused |
| OffsetPages.ParseLimitOfNumeral | src/pagination.js:26-34 | A plain number asks for that many rows, up to the maximum |
| OffsetPages.WalkCollectsTheRest | src/routes/packages.js:187-230 | Following next from any offset collects exactly the rows from there on |
| OffsetPages.PrevUndoesNext | src/pagination.js:131-146 | The page next leads to has a prev that serves the page it came from |
| OffsetPages.PrevEndsWhereThePageStarts | src/pagination.js:141-143 | From any offset prev starts a page earlier and reaches up to the page |
| BuildLog.TailWithinBytes | src/compiler.js:51-56 | Skipping continuation bytes gives the longest suffix of whole characters within the limit |
| BuildLog.TailIsLongestFittingSuffix | src/compiler.js:51-56 | What that suffix is: it fits, and no longer one does |
| BuildLog.TailStartsAtNextCharacter | src/compiler.js:53-55 | Between the byte limit and the tail no character starts |
| BuildLog.TailAfterTail | src/compiler.js:141-148 | Cutting the kept tail again after more output equals cutting everything |
| BuildLog.CutForMonotone | src/compiler.js:69-75 | A larger printed count never leaves a smaller cut, which is why the loop ends |
| BuildLog.ConsistentCutsLieAbove | src/compiler.js:69-75 | The loop never steps past a truthful cut |
| BuildLog.CapLog | src/compiler.js:64-76 | Ends; at most 16384 bytes; unchanged when it fits; otherwise the longest tail any truthful marker leaves room for |
| BuildLog.CappedLogIsUnique | src/compiler.js:70-73 | There is one such log, and its number reads back as dropped plus text bytes minus tail bytes |
| BuildLog.StreamingEqualsBatch | src/compiler.js:138-181 | After any chunks a stream holds the tail of everything received |
| BuildLog.BuildOutput.Append | src/compiler.js:141-148 | Keeps the tail and adds exactly the bytes it cut to the count |
| BuildLog.BuildOutput.OnStdout | src/compiler.js:176-178 | The streams stay the tails of what arrived, and dropped plus kept bytes stay the bytes received |
| BuildLog.BuildOutput.OnStderr | src/compiler.js:179-181 | The same for the other stream |
| BuildLog.BuildOutput.Log | src/compiler.js:149 | What is kept of stdout, a line break and what is kept of stderr, trimmed; capped with a marker whose number counts what arrived and is not shown, plus the line break, minus what was trimmed |
| JsText.TrimTakesWhiteSpace | src/compiler.js:149 | Trimming takes white space off either end and all of it |
| Utf8.DecodeIsInverseOfEncode | src/compiler.js:51-56 | Decoding accepts exactly the encodings of section 3 of RFC 3629 and undoes them |
| OrgOwners.EveryOrganizationIsOwned | src/routes/orgs.js:354-392 | Over every interleaving of removals and account deletions around the row locks, every organization keeps an owner with an account, if nobody is made an owner during their own deletion |
| OrgOwners.StepKeepsInv | src/routes/users.js:324-364 | Each statement keeps that, the locks consistent, and every passed check true |
| OrgOwners.OnlyTheHolderTakes | src/routes/orgs.js:360-370 | Only the process holding an organization's row can take an owner off it |
| OrgOwners.ClosingChecksExactly | src/routes/users.js:333-345 | A deletion holding its locks passes its check if and only if no organization has this user as its only owner |
| OrgOwners.RemovalSucceedsExactly | src/routes/orgs.js:360-392 | With the row in hand a removal takes the owner if and only if they are one and not the only one, and ends either way |
| OrgOwners.ClosingCanFinish | src/routes/users.js:324-364 | A user nowhere the only owner can be deleted, and owns nothing afterwards |
| OrgOwners.CascadeIsSafeExactly | src/routes/users.js:333-362 | The cascade is safe if and only if no organization it did not lock has this user as its only owner |
| OrgOwners.OverlapLeavesNoOwner | src/routes/orgs.js:320-325 | A run in which an addition overlapping a deletion leaves an organization without an owner |
| Downloads.DownloadTables.AggregateDay | src/metrics.js:14-36 | The day's upsert, group by group, for the UTC day holding the instant |
| Downloads.DownloadTables.Transfer | src/transfer.js:229-245 | Clearing the destination and moving the source's rows, on both download tables |
| Downloads.MidnightIsUnique | src/metrics.js:9-11 | The day start is the one midnight at or before the instant and less than a day away |
| Downloads.AggregationCounts | src/metrics.js:17-35 | Every address downloaded that day gets its exact total and distinct counts, and every other rollup stays |
| Downloads.ClientsByFields | src/metrics.js:17-35 | Downloads with different hashes are different clients whatever their user agents; without hashes the user agent decides, and without either all are one |
| Downloads.RollupsCount | src/metrics.js:17-35 | A day's rollup has as its total the number of the address's downloads that day and as its distinct count the number of their clients, and any other rollup stays |
| Downloads.AggregationIsIdempotent | src/metrics.js:31-34 | Aggregating a day again changes nothing |
| Downloads.DaysCommute | src/metrics.js:56-58 | Days can be aggregated in any order |
| Downloads.AggregationCommutesWithTransfer | src/transfer.js:29-37 | Aggregating and moving an extension commute, total and distinct, whatever the destination had left over |
| Downloads.TransferMovesDownloads | src/transfer.js:229-245 | After a transfer the destination has on each day the downloads, clients and rollup the source had, the source none, and every other address its own |
| RateLimit.Limiter.Record | src/rate-limit.js:17-27 | Adds one to the counter of the open window and returns it |
| RateLimit.Limiter.Check | src/rate-limit.js:56-62 | Counts every attempt and admits it exactly up to the limit; a null limit admits and counts nothing |
| RateLimit.Limiter.Cleanup | src/rate-limit.js:82-86 | The counter of every window a limit has open is as it was, and none is left of a window no limit can have open |
| RateLimit.WindowAdmits | src/rate-limit.js:46-62 | Where every attempt counts, the number admitted in each fixed window is the smaller of the limit and the attempts made, in whatever order they land, as long as none lands after a cleanup has passed its window |
| RateLimit.SlidingIntervalAdmits | src/rate-limit.js:46-62 | In any interval of one window's length at most twice the limit is admitted |
| RateLimit.SweepSparesOpenCounters | src/rate-limit.js:76-86 | The cleanup never drops a counter whose window is open |
| RateLimit.OpenCounterIsExact | src/rate-limit.js:17-27 | In such a run the open window's counter is there and exact |
| RateLimit.LaterThanSweepsIsInTime | src/rate-limit.js:82-86 | Attempts that read the clock no earlier than the cleanups before them land in time |
| RateLimit.OperationsDo | src/rate-limit.js:46-62 | An attempt at a limited bucket adds one to its window's counter and passes up to the limit, an unlimited one passes uncounted, and a cleanup drops exactly the counters older than the longest window |
| LoginLimit.LookIsExact | src/rate-limit.js:29-39 | A sign-in gets to try a password if and only if fewer have failed in this window than the limit allows, or none has |
| LoginLimit.SigninsDo | src/rate-limit.js:29-44 | A look, a failure, a success and a cleanup, by what each does to the counters and the sign-ins in flight |
| LoginLimit.FailuresAnswered | src/rate-limit.js:40-43 | Of the wrong passwords in a window the first `max` are answered as such |
| LoginLimit.SuccessesCountNothing | src/routes/sessions.js:37-53 | While no password is wrong there is no counter, and every sign-in may try |
| LoginLimit.GuessesAreBounded | src/routes/sessions.js:37-53 | The wrong passwords tried in a window are at most what the limit has room for, and one more for each further sign-in in flight |
| LoginLimit.LoginLimiter.RecordFailure | src/rate-limit.js:40-43 | The closure a wrong password calls counts it and says whether it is answered |

## Left out

- Routing, bodies, error rendering, authentication, scopes and terms: who may call what is not modelled, only what the call then does.
- Compiling, unpacking, image resizing, hashing, HMAC, DNS and sockets: compiled bytes, tarballs, images and an attempt's result are inputs.
- Legacy rows without a digest and the re-key pass of src/db.js:137-184, which sets sizes without charging them.
- BuildLog.CapLog: requires counts within JavaScript's exact integers, which is where the source's own arithmetic stops being exact.
- BuildLog.TailWithinBytes: replacement characters for lone surrogates are not modelled, because a stream decoded as UTF-8 hands out none.
- Keyset.RegistryWalk: text compares by code point, not by the database's collation; the table is fixed during a walk; cursor encoding and link URLs are not modelled.
- OffsetPages.WalkCollectsTheRest: takes the caller's readable list as given; the in-memory SemVer sort and range filter are not modelled.
- RegistryService.Store.StagePublish: `version` stands for SemVer precedence, so two spellings of equal precedence are one version; the two publish transactions that only touch files are in StoreProtocol.
- RegistryService.Store.Accept: moves versions, charge, redirect and offers; of the other address-keyed tables only the two download tables are modelled, in Downloads, and the check that a receiving organization has an owner is left out.
- RegistryService.Store.CloseAccount: the sole-owner check is in OrgOwners; whether a foreign key from extension_owners.added_by stops the deletion is an input, since those rows are not modelled.
- RegistryService.Store.Review: reads the row and writes it as one transaction; a review racing a transfer of its own version is not modelled.
- RegistryRuns.DoKeepsSound: transactions are atomic; races inside a transaction at READ COMMITTED, deadlocks between opposite transfers, and a publish racing its publisher's own deletion are not modelled. A reconcile may settle a staging row of any age, which is more than the source allows.
- StoreProtocol.LiveBytesStay: disks do not corrupt files, and SHA-256 has no collisions; a promoted row need not have a source, since the reconcile accepts one without.
- BlobStore.Store.GcBlobs: plain files directly under the blobs directory are skipped by the source and not modelled, nor is the error of unlinking a directory, which a one-character directory holding a one-character name would lead to.
- Deliveries.DeliveryTable.ClaimDue: rows locked by a concurrent claim are skipped in the source; DeliveryLease covers that by taking claims as atomic. The last delivery status of a webhook, which no lease guards, and fairness are left out.
- OrgOwners.EveryOrganizationIsOwned: additions are atomic, and the source's blocking of an addition while the organization's row is locked is not relied on.
- RateLimit.WindowAdmits: the boot-time prune by two of the four windows is left out; signing in counts failures only and is in LoginLimit.
- LoginLimit.GuessesAreBounded: each statement lands in the order it read the clock, and one bucket is followed at a time, although a sign-in looks at two.
- Feeds, badges, search ranking, notifications, audit entries and metrics export: presentation or bookkeeping.
