# Market ledger: a verified model

A Dafny model of the stateful core of the market ledger backend, with proofs over every
input, every run and every reachable state. `dafny verify dfyconfig.toml` checks all of it.

## What is modelled

**Cloud sync** (`SyncModel`, `SyncEffects`, `SyncInvariant`, `SyncConvergence`, `SyncDelivery`,
`SyncAnswers`, `SyncColumns`, `SyncOutcomes`, `SyncWitnesses`, `CloudSync`). Many devices push batches of operations to one server, which keeps
versioned rows, tombstones, an append-only change log and a ledger of operation ids. Devices catch up through a
bootstrap and a bounded cursor pull. `SyncModel` gives each step as a function on a server value;
`CloudSync.CloudSyncService` is the service with mutable tables, each method proved to be that
function. `SyncEffects` shows that every operation amounts to at most one table write, and the
other modules prove the protocol over arbitrary requests from arbitrary devices. A `Schema` says how
a column shows a value in the log and how it reads back.

**Derivatives** (`MaxPain`, `Futures`). Max pain scans only the listed strikes; the proof shows
when that gives the minimum over every price. Continuous futures choose one contract a day and
mark the days on which the contract changes.

**Data quality** (`Monitoring`, `MonitoringBooks`, `Audit`, `AuditStatuses`). The monitor opens,
re-notifies, resolves and reopens an episode for each anomaly key; its notifications are studied as traces over any number of runs. The
audit turns database counts into statuses, an overall status and the anomalies that feed the
monitor.

**Alerts** (`AlertRules`, `AlertMeanings`, `AlertEngine`, `AlertFirings`, `AlertWindow`, `AlertLookBack`,
`AlertThrottle`, `AlertReruns`, `AlertEligibility`). Rules are validated and evaluated on price histories;
the engine turns firings into events with a fingerprint, a cooldown and a daily limit, deciding
from a bounded look-back. The proof replaces the look-back by a search of the whole history.

**Prices** (`Prices`, `Ingestion`, `IngestionMeanings`, `Reingestion`, `Calendar`, `Candles`, `CandleMeanings`,
`Grouping`). Daily prices are validated, deduplicated, grouped and upserted; candles are merged into
ISO weeks (section 4.1.4 of ISO 8601:2004) or months.

**Realtime subscriptions** (`Registry`). Owners share subscriptions; the broker session follows
what is owned across disconnects and reconnects.

Results about whole runs are stated over the functions that specify the code; `SyncColumns`,
`SyncOutcomes`, `AlertFirings`, `AlertMeanings`, `MonitoringBooks`, `AuditStatuses`, `IngestionMeanings` and
`CandleMeanings` say what those functions compute in terms of the inputs alone.

Each service call is one atomic step. Clocks, parsed times and numbers, column checks and database
query results are inputs. Exceptions and error returns are values of result datatypes.

## Where the code departs from what one would expect

- **A refusal that writes.** `_update_row` stores the new key of a USER_SETTING before it refuses
  a null value (backend/app/services/cloud_sync.py:362-367), so the REJECTED operation changes the
  row with no version and no log entry. The model keeps this; `SyncDelivery.RejectedLeavesRowsIff`
  gives the exact condition and `SyncDelivery.DirtyRefusalWitness` two operations that reach it.
- **The log shows columns as sent, a bootstrap as stored.** Prices are Numeric(24, 8) and
  threshold_percent is Numeric(10, 4) (backend/app/repositories/models.py:61-62, 95-97, 177-178), and
  the log payload is built from the row in memory (backend/app/services/cloud_sync.py:138-139). An
  accepted price "950.0" is logged as "950.0" and bootstraps as "950.00000000"; more digits than the
  scale are logged and then rounded away. The model gives every server a `Schema` with the two forms
  of a column value. Replicas agree with the server up to the stored form always, and exactly when
  the columns that change are logged as they are stored. `SyncDelivery.LogStillMatchesIff` is the
  exact condition for both departures, and `SyncWitnesses.RawPriceWitness` reaches this one from an
  empty server.
- **A repeated operation id aborts its batch.** The stored results are read before the batch starts,
  so a second new operation with the same id violates the ledger's unique constraint
  (backend/app/repositories/models.py:154) and rolls everything back. `SyncDelivery.BatchFailsIff` is
  exact: a batch fails iff it repeats a new id or some operation itself raises.
- **Deleted watchlist items keep their place.** A tombstone still occupies UNIQUE
  (watchlist_id, security_id) (backend/app/repositories/models.py:86), so creating the item again under
  another id aborts the batch. `SyncWitnesses.ItemBlockedIff` is the exact condition and
  `SyncWitnesses.TombstoneBlocksWitness` reaches it from an empty server.
- **A price with more digits than its column is updated by every run.** A row is compared as it reads
  back with the record as it was sent (backend/app/repositories/sql_price.py:97-110); prices keep eight
  decimals and turnover four (backend/app/repositories/models.py:365-374). So a turnover of 1.00001
  counts as updated in every later run, which also rewrites the run id.
  `Reingestion.SecondRunIsQuietIff` is the exact condition, `Reingestion.EveryLaterRunUpdates` the lasting
  count and `Reingestion.FiveDecimalsWitness` two runs that show it.
- **COMPLETE is not wholly silent.** The monitor's description promises no notification for a
  COMPLETE report (backend/app/services/data_quality_monitoring.py:48-55); the code still sends
  resolutions of earlier anomalies. `Audit.SilentRunIff` gives the exact condition, that no record of
  the date is active, and `Audit.CompleteDayWitness` two runs that end in a resolution.
- **A closed day in the window silences a rule.** The last rows are taken before closed days are left
  out (backend/app/repositories/sql_alert.py:119-162, backend/app/services/alerts.py:82-89). A rule that
  asks for as many days as are loaded says nothing when one of them is closed
  (`AlertWindow.ClosedDayCosts`). A rule with enough open days in the window decides as on the whole
  history (`AlertWindow.WindowIsExact`), always when none of them is closed (`AlertWindow.OpenWindowIsExact`).
- **A PARTIAL day can be silent.** NO_DATA of the market spot or of the technicals raises no
  anomaly; `Audit.AuditAndMonitorAgree` shows that this is the only silent PARTIAL day.
- **Unresolvable securities block reconnection.** The registry keeps an acquired identity even when
  its contract cannot be resolved, and restoring then ends every later connection attempt
  (`Registry.ConnectedIff`).

## Model

| member | source | states |
|---|---|---|
| CloudSync.CloudSyncService.UpdateRow | backend/app/services/cloud_sync.py:315-370 | Updating a row in place gives the specified columns, keeps the columns written before a refusal, and touches no other row |
| CloudSync.CloudSyncService.Mutate | backend/app/services/cloud_sync.py:104-157 | Creating, updating or deleting one row, flushing it in stored form and logging what memory shows is the specified decision on the whole server state |
| CloudSync.CloudSyncService.Apply | backend/app/services/cloud_sync.py:66-102 | One operation with duplicate, ownership and version checks and its ledger row is the specified step |
| CloudSync.CloudSyncService.Push | backend/app/services/cloud_sync.py:45-64 | The loop over a batch, with its rollback on an exception, is the specified transaction |
| CloudSync.CloudSyncService.Changes | backend/app/services/cloud_sync.py:384-401 | Fetching one row more than the page gives the specified page, next cursor and has_more |
| CloudSync.CloudSyncService.Bootstrap | backend/app/services/cloud_sync.py:403-478 | The seven selections together hold exactly the live rows of the user as stored, and the cursor is 0 or an entry of the user's log with none after it |
| SyncEffects.AcceptedIff | backend/app/services/cloud_sync.py:66-157 | An operation is ACCEPTED iff it passes the checks on kind, owner, base version, tombstone and payload, and then commits the row with the columns it was sent |
| SyncEffects.DecideEffect | backend/app/services/cloud_sync.py:66-157 | A decided operation is at most one legal table write: ACCEPTED iff a versioned write at the next sequence, logged otherwise than stored iff it changes a column to such a value, and a write without a version iff it is the dirty refusal |
| SyncEffects.BuildOwnsParents | backend/app/services/cloud_sync.py:159-313 | A row that validation builds points only to existing parents of its own user |
| SyncEffects.UpdateKeepsParents | backend/app/services/cloud_sync.py:315-370 | No update changes a parent reference, even when it is refused |
| SyncEffects.PushEffects | backend/app/services/cloud_sync.py:45-64 | A request, committed or rolled back, is a sequence of legal effects, each of its own user and on a row that one of its operations names |
| SyncEffects.RunEffects | backend/app/services/cloud_sync.py:45-64 | Any requests are a sequence of legal effects, each caused by an operation of one of them: a write without a version only by an unsafe payload, a write logged otherwise than stored only by a payload that is not plain |
| SyncInvariant.WellFormedStep | backend/app/services/cloud_sync.py:104-157 | One effect keeps all invariants together: log order, gapless versions, tombstone labels, parents of the same owner, unique constraints, columns in stored form |
| SyncInvariant.RunKeepsWellFormed | backend/app/services/cloud_sync.py:45-157 | The invariants survive any requests of any devices from any state in which they hold |
| SyncInvariant.ReachableWellFormed | backend/app/services/cloud_sync.py:104-157 | In every reachable state each entity's logged versions are exactly 1, 2, ..., row.version and every item or transaction has an existing parent of its owner |
| SyncInvariant.TombstonesAreFinal | backend/app/services/cloud_sync.py:120-136 | Over any run deleted_at is never cleared, the content of a deleted row never changes, and owner and parents never change |
| SyncInvariant.PushesIsolateUsers | backend/app/services/cloud_sync.py:75-90 | Whatever one user pushes, another user's rows, log, ledger and bootstrap stay the same |
| SyncConvergence.LogReproducesRows | backend/app/services/cloud_sync.py:104-157 | In every reachable state folding a user's log with last payload wins gives every row, tombstones included: up to the stored form of columns and setting keys always, and each of them exactly for requests that are plain or safe |
| SyncConvergence.PageSplits | backend/app/services/cloud_sync.py:384-401 | A page is a prefix of the entries after its cursor, the next cursor starts the rest, and has_more holds iff there is a rest |
| SyncConvergence.LaterEntries | backend/app/services/cloud_sync.py:384-401 | Entries pushed after a page was read are never skipped by its next cursor |
| SyncConvergence.PullIsExact | backend/app/services/cloud_sync.py:384-401 | A pull of any number of pages of any sizes, with pushes in between, returns the user's entries between first and last cursor once each and in order |
| SyncConvergence.PageProgress | backend/app/services/cloud_sync.py:384-401 | While has_more holds every page takes exactly its bound off a fixed rest, and the cursor advances iff the bounds are positive |
| SyncConvergence.QuietPullEnds | backend/app/services/cloud_sync.py:384-401 | Once pushes stop, a pull with positive limits ends within one page for each entry left, and at least one |
| SyncConvergence.PullEnds | backend/app/services/cloud_sync.py:384-401 | After any busy pages, with pushes in between, at most as many quiet pages as there are entries still to come end the pull, which has then returned every entry after its first cursor |
| SyncConvergence.ReplayIsLive | android-app/app/src/main/java/tw/market/ledger/CloudSyncManager.kt:53-75 | A device that drops deleted entities holds the live part of one that keeps tombstones |
| SyncConvergence.Convergence | backend/app/services/cloud_sync.py:384-478 | A device that bootstraps in any well-formed state and pulls until has_more is false, while anybody pushes, holds the server's live rows: up to the stored form of columns and setting keys always, and each of them exactly when the pushes since the bootstrap are plain or safe |
| SyncConvergence.ReplayFromZero | backend/app/services/cloud_sync.py:384-401 | Replaying the log from cursor 0 onto nothing gives the same live rows, as closely in the same cases |
| SyncConvergence.ConvergesExactly | backend/app/services/cloud_sync.py:384-478 | When the pushes since the bootstrap are plain and safe, such a device equals the server's live rows |
| SyncConvergence.ReplaysExactly | backend/app/services/cloud_sync.py:384-401 | When all requests are plain and safe, replaying the whole log equals the live rows |
| SyncDelivery.LogRecordsAcceptances | backend/app/services/cloud_sync.py:138-157 | Over any run the log is the record of the accepted operations of committed batches: one entry each, in order, and nothing else |
| SyncDelivery.NoLostUpdate | backend/app/services/cloud_sync.py:66-102 | Over any run accepted operations on one entity have rising versions and base versions, so at most one of those that share a base version is accepted |
| SyncDelivery.BatchIsStored | backend/app/services/cloud_sync.py:45-102 | After a committed batch the ledger holds the result of each of its operations and still holds all earlier ones |
| SyncDelivery.RetryIsIdempotent | backend/app/services/cloud_sync.py:45-102 | Retrying a committed batch, from any active device after anything else, changes nothing and returns the stored results as DUPLICATE |
| SyncDelivery.AtMostOnce | backend/app/services/cloud_sync.py:45-102 | Over any history of retries an operation id of a user is answered with a fresh result at most once, and never when it was already stored |
| SyncDelivery.RejectedLeavesRowsIff | backend/app/services/cloud_sync.py:357-370 | A REJECTED operation leaves the rows unchanged iff it is not a setting update that writes a new key and then refuses a null value |
| SyncDelivery.LogStillMatchesIff | backend/app/services/cloud_sync.py:138-157 | An applied operation keeps every user's rows reproducible from the log iff it is neither the dirty refusal nor an accepted UPSERT that changes a column to a value logged otherwise than stored |
| SyncDelivery.AlwaysMatchesIff | backend/app/services/cloud_sync.py:104-157 | Over a whole run of effects the log reproduces the rows at every step iff none of them is such a refusal or such a write |
| SyncDelivery.DirtyRefusalWitness | backend/app/services/cloud_sync.py:362-367 | A create followed by such a refusal leaves a row that the log does not show |
| SyncDelivery.RepeatedIdAborts | backend/app/services/cloud_sync.py:45-102 | A batch that repeats an operation id not yet stored never commits and changes no table |
| SyncDelivery.BatchFailsIff | backend/app/services/cloud_sync.py:45-64 | A request of an active device fails as a whole iff it repeats an operation id not yet stored, or an operation that is not a duplicate raises in the state the operations before it left |
| SyncWitnesses.ItemBlockedIff | backend/app/repositories/models.py:86 | Creating a watchlist item that is valid in itself raises iff another item row, deleted or not, has the same watchlist and security |
| SyncWitnesses.TombstoneBlocksWitness | backend/app/services/cloud_sync.py:104-157 | From an empty server, creating a list and an item and deleting the item is accepted, and creating the item again under another id raises |
| SyncWitnesses.RawPriceWitness | backend/app/services/cloud_sync.py:138-139 | From an empty server, creating a list keeps the log true to the rows, and then creating an item with target price "950.0" is accepted and leaves a row that the log does not show |
| SyncWitnesses.FixedScaleIsLawful | backend/app/repositories/models.py:95-97 | A column that stores "950.0" with eight decimals keeps every law the model asks of a database, so the witnesses are not empty |
| SyncAnswers.ConflictIff | backend/app/services/cloud_sync.py:66-136 | A conflict arises iff the user's own row has another version or an UPSERT meets a tombstone; it changes nothing, shows the row as the server has it, and is STALE_VERSION iff the versions differ |
| SyncAnswers.RebaseResolves | backend/app/services/cloud_sync.py:66-136 | Sent again on the version a conflict shows, a DELETE is accepted and an UPSERT conflicts again iff the row is a tombstone |
| SyncAnswers.TombstoneRefusesUpserts | backend/app/services/cloud_sync.py:120-136 | Once an entity is deleted every later UPSERT of it conflicts, on any base version and after any run |
| SyncAnswers.AcceptedUpsertIsRead | backend/app/services/cloud_sync.py:104-157 | An accepted UPSERT is live with the values it carries in stored form, is logged with them in logged form, keeps every column it does not carry and every other row |
| SyncAnswers.AcceptedDeleteIsGone | backend/app/services/cloud_sync.py:120-157 | An accepted DELETE is no longer live, keeps its content as a logged tombstone, and touches no other row |
| SyncAnswers.AcceptedWriteReachesDevices | backend/app/services/cloud_sync.py:45-478 | Whatever others push between the bootstrap of a device and its last page, an UPSERT accepted in any batch among it, with no later operation of its user on the entity, ends up on the device with the values as logged and on the server with the values as stored |
| SyncAnswers.AcceptedDeleteReachesDevices | backend/app/services/cloud_sync.py:45-478 | In the same circumstances an accepted DELETE leaves the entity neither on the device nor among the server's live rows |
| SyncColumns.NewRowIsRead | backend/app/services/cloud_sync.py:159-313 | An accepted UPSERT of a new entity leaves a live version 1 with exactly the columns of its kind, in stored form: each as sent or its default, the quantity of a transaction converted, its time the one sent or now, scope ids and setting values as the code derives them; the one log entry shows the same columns in logged form |
| SyncColumns.NewRowIsUnique | backend/app/services/cloud_sync.py:159-313 | A payload determines all columns of a new row |
| SyncColumns.UpdateIsRead | backend/app/services/cloud_sync.py:315-370 | An accepted UPSERT of an existing entity writes exactly the columns it carries among those of its kind that may change, keeps every other column, and makes the next version |
| SyncColumns.DeleteIsRead | backend/app/services/cloud_sync.py:120-157 | A DELETE of the user's own entity on its current version is accepted and changes only version, updated_at and deleted_at |
| SyncOutcomes.CreationOutcome | backend/app/services/cloud_sync.py:104-313 | An UPSERT of a new entity is REJECTED iff a stated check on its payload and parents refuses it, ACCEPTED iff it passes and its row fits the table, and otherwise raises |
| SyncOutcomes.UpdateOutcome | backend/app/services/cloud_sync.py:120-136 | An UPSERT of the user's live entity on its current version is REJECTED iff a stated check refuses it and what it leaves fits, ACCEPTED iff its columns can be assigned and fit, and otherwise raises |
| SyncOutcomes.StrangersAreRejected | backend/app/services/cloud_sync.py:70-111 | Unknown kinds and mutations, the DELETE of nothing and operations on another user's row are REJECTED and change nothing |
| SyncOutcomes.ForbiddenIff | backend/app/services/cloud_sync.py:45-48 | A push is forbidden iff its device is unknown, revoked or somebody else's, and then changes nothing |
| MaxPain.Calculate | backend/app/services/derivatives.py:72-106 | The report names the least payout over the listed strikes, all strikes that reach it in ascending order, and max pain iff there is only one |
| MaxPain.PayoutOfOne | backend/app/services/derivatives.py:81-92 | No options cost nothing, and one option costs its open interest times the amount by which it is in the money, nothing at or beyond its strike |
| MaxPain.PayoutAdds | backend/app/services/derivatives.py:81-92 | What two groups of options cost together is what they cost apart |
| MaxPain.ValidAdds | backend/app/services/derivatives.py:72-80 | The rows with open interest are taken in their order |
| MaxPain.IngestedIff | backend/app/services/derivatives_ingestion.py:64-67 | Ingestion lets exactly the rows with a positive strike and no negative open interest through |
| MaxPain.SlopeIsInterest | backend/app/services/derivatives.py:81-92 | Between neighbouring strikes the slope is the call open interest at or below minus the put open interest at or above |
| MaxPain.PayoutLinear | backend/app/services/derivatives.py:81-92 | Between neighbouring strikes the payout is linear with that slope |
| MaxPain.GlobalMinimumIff | backend/app/services/derivatives.py:72-106 | The listed minimum is the minimum over every price whatsoever iff neither total call nor total put open interest is negative |
| MaxPain.UndercutBelow | backend/app/services/derivatives.py:81-94 | With negative total put interest some price below the strikes undercuts any payout |
| MaxPain.UndercutAbove | backend/app/services/derivatives.py:81-94 | With negative total call interest some price above the strikes undercuts any payout |
| MaxPain.MaxPainIsGlobal | backend/app/services/derivatives_ingestion.py:64-67 | Rows that passed ingestion meet that condition, so scanning the listed strikes finds the global minimum |
| MaxPain.PayoutConvex | backend/app/services/derivatives.py:81-92 | With ingested rows the payout at a price is at most the weighted mean of the payouts on either side |
| MaxPain.TiesAreContiguous | backend/app/services/derivatives.py:93-94 | Every listed strike between the first and the last tie is a tie |
| Futures.Build | backend/app/services/derivatives.py:33-66 | The series has one point for each distinct date, ascending, with the selected row of that date and a roll date exactly where the contract differs from the previous point |
| Futures.SelectIsOptimal | backend/app/services/derivatives.py:41-46 | The selected row is one of the candidates and none is better by volume, open interest or expiry |
| Futures.ZerosDoNotMatter | backend/app/services/derivatives.py:41-46 | Writing a missing volume or open interest for a zero one selects the same row, because the ranking reads both as -1 |
| Futures.SeriesIsOptimal | backend/app/services/derivatives.py:33-66 | Every date of the rows has a point, dates ascend strictly, and each point is optimal among all rows of its date |
| Futures.SeriesIsContinuous | backend/app/services/derivatives.py:33-66 | The series, exactly: one point for each date of the rows, strictly ascending, the first of the best rows of that date whatever their counts, and that date as roll date iff its contract differs from the one before |
| Futures.RollsAreRunBoundaries | backend/app/services/derivatives.py:47-65 | A stretch of points without a roll date is exactly a stretch with one contract |
| Futures.AppendKeepsPrefix | backend/app/services/derivatives.py:33-66 | Appending rows of later dates leaves every earlier point unchanged |
| Monitoring.Deduplicate | backend/app/services/data_quality_monitoring.py:82-83 | The detected anomalies by key: each key once, with the anomaly of that key that comes last in the list |
| Monitoring.DataQualityMonitoringService.Process | backend/app/services/data_quality_monitoring.py:101-201 | A detected key opens, re-sees or reopens its record and notifies as its step says; no other record changes |
| Monitoring.DataQualityMonitoringService.Resolve | backend/app/services/data_quality_monitoring.py:203-233 | An active record that is no longer detected is resolved with one notification; any other is left alone |
| Monitoring.DataQualityMonitoringService.EvaluateDate | backend/app/services/data_quality_monitoring.py:43-262 | A run gives every key of its date its step and no other key any, sends one outbox row for each notification, is silent off trading days, counts detected anomalies, active, new and resolved keys as they are, and balances created + suppressed = active + resolved |
| Monitoring.HistoryIsTrace | backend/app/services/data_quality_monitoring.py:101-233 | Over any history of runs, in whatever order keys are handled, the records and notifications of a key are its own trace |
| Monitoring.TracesAreEpisodic | backend/app/services/data_quality_monitoring.py:101-233 | Over any runs a key's notifications are (alert+ resolution)* alert*, successive alerts are a cooldown apart or escalate, and the record mirrors the last alert |
| Monitoring.TraceInOrder | backend/app/services/data_quality_monitoring.py:58-233 | With a clock that never goes back a key's notifications are in time order, each at the time of a run |
| Monitoring.AtMostFourAlerts | backend/app/services/data_quality_monitoring.py:159-177 | At most four alerts of one episode fall within a span shorter than the cooldown |
| Monitoring.FourAlertsReached | backend/app/services/data_quality_monitoring.py:159-177 | Four alerts at one time are reached, so the bound is tight |
| Monitoring.RecordsKeepBooks | backend/app/services/data_quality_monitoring.py:101-212 | A record exists iff some run detected the key, counts the runs that did, and after a run of its date is ACTIVE iff that run detected it |
| Monitoring.DetectedIsAlerted | backend/app/services/data_quality_monitoring.py:101-233 | After a run that detects a key its last notification is an alert at least as severe, sent now or less than a cooldown ago; after one that does not, a resolution |
| MonitoringBooks.NotesAreSent | backend/app/services/data_quality_monitoring.py:101-233 | Over any runs each notification comes from one run, in the order of the runs: a resolution is INFO, from a run that does not list the key, with the number of runs that had; an alert has the severity its run lists and the number of runs that have, this one included |
| MonitoringBooks.RecordIsDated | backend/app/services/data_quality_monitoring.py:101-233 | A record's first_seen and last_seen are the first and last run that list the key, its message is of the last, and it is RESOLVED, at the time of the next run that looks at the key, iff there is one |
| Audit.OverallStatus | backend/app/services/data_quality_audit.py:677-714 | The loop over the statuses computes the specified overall status, leaving out the volatility index |
| Audit.AuditDate | backend/app/services/data_quality_audit.py:55-115 | The report collects the specified status of every dataset |
| AuditStatuses.StatusesIff | backend/app/services/data_quality_audit.py:117-674 | Master, both markets, spot, technicals, industry and duplicates have each status exactly under the stated condition on the database's counts; a market is COMPLETE iff it has rows, no duplicate, and at most one stock in fifty is missing |
| AuditStatuses.DerivativesIff | backend/app/services/data_quality_audit.py:327-451 | The eight derivative datasets come in order; each is COMPLETE iff it has rows and NO_DATA otherwise, but the volatility index is UNAVAILABLE |
| AuditStatuses.OverallIff | backend/app/services/data_quality_audit.py:677-714 | The overall status has each value exactly under the stated condition on the statuses that count |
| Audit.ExtractAnomalies | backend/app/services/data_quality_monitoring.py:279-601 | The appended anomalies are those specified for each status and failed run |
| AuditStatuses.AnomaliesIff | backend/app/services/data_quality_monitoring.py:279-601 | An anomaly is extracted iff the day trades and its type, dataset, scope and severity are those stated for a failed run or for the status of that dataset |
| Audit.DerivativesSilentIff | backend/app/services/data_quality_monitoring.py:279-601 | The derivatives raise no anomaly iff every dataset but the volatility index is COMPLETE |
| Audit.SilentIff | backend/app/services/data_quality_monitoring.py:279-601 | The report of a trading day without failed runs raises nothing iff the master is COMPLETE and at most the spot or technicals lack data |
| Audit.AuditAndMonitorAgree | backend/app/services/data_quality_audit.py:688-714 | COMPLETE implies no anomaly, FAILED, STALE or NO_DATA at least one, and a PARTIAL day is silent iff only the spot or technicals have no data |
| Audit.AnomaliesAreOfTheDay | backend/app/services/data_quality_monitoring.py:279-601 | Every extracted anomaly has the report's date, which the monitor relies on |
| Audit.SilentRunIff | backend/app/services/data_quality_monitoring.py:48-262 | A run of a trading day that detects nothing sends no notification iff no record of the date was active |
| Audit.CompleteDayWitness | backend/app/services/data_quality_monitoring.py:203-233 | A run that detects a failed import and then a COMPLETE run of the same day send an alert and a resolution |
| Audit.Monitor | backend/app/services/data_quality_monitoring.py:43-262 | Audit, extraction and monitor together are one run, and a COMPLETE day without failed runs has no active anomaly, sends resolutions only, and sends none iff no record of the date was active |
| AlertRules.ValidRuleRaisesIff | backend/app/domain/alert.py:112-173 | Evaluating a validated rule raises iff it tests nearness to an available average of zero |
| AlertMeanings.EvaluateIff | backend/app/services/alert_evaluators.py:7-100 | Each of the eleven rule types fires iff a stated condition on the history holds, and raises iff it has no period or tests nearness to a zero average or without a percentage; a firing reports the rule type, the last close, the threshold or average it was measured against, and the status of the last point |
| AlertMeanings.ValidIff | backend/app/domain/alert.py:112-173 | A rule is valid iff it has one target of its scope, each setting exactly where its type reads it and in its range, and a mode that supports its type |
| AlertRules.TargetIsComplete | backend/app/services/alert_evaluators.py:18-28 | A close below the target and a later one at or above it make PRICE_TARGET fire in between |
| AlertRules.StopIsComplete | backend/app/services/alert_evaluators.py:18-30 | A close above the stop and a later one at or below it make PRICE_STOP fire in between |
| AlertRules.TargetsAreSeparated | backend/app/services/alert_evaluators.py:27-28 | Two firings of a target are never on successive days and have a close below the target between them |
| AlertRules.StopBetweenTargetsIff | backend/app/services/alert_evaluators.py:27-30 | Between two firings of a target a stop at the same reference fires iff some close in between was strictly above it |
| AlertRules.TargetBetweenStopsIff | backend/app/services/alert_evaluators.py:27-30 | Between two firings of a stop a target at the same reference fires iff some close in between was strictly below it |
| AlertRules.TargetAndStopAlternate | backend/app/services/alert_evaluators.py:27-30 | When no close equals the reference, target and stop strictly alternate |
| AlertRules.ConsecutiveIffEachDay | backend/app/services/alert_evaluators.py:76-90 | N consecutive closes above fires iff closing above fires on each of the last N days |
| AlertRules.CrossIsFirstDayAbove | backend/app/services/alert_evaluators.py:49-69 | Crossing above fires iff closing above fires and did not on the previous day, when that day had close and average |
| AlertRules.WindowSuffices | backend/app/services/alert_evaluators.py:7-100 | A validated rule evaluates on the last points as on the whole history when there are at least as many as it asks for |
| AlertLookBack.LoadKnows | backend/app/repositories/sql_alert.py:217-241 | The bounded look-back answers every question of the run (known fingerprint, recent event, eligible count) as the whole history does |
| AlertLookBack.VisitIsIdeal | backend/app/services/alerts.py:81-116 | One rule on one security decides as a search of the whole history would, and the memory stays as informed about all remaining tasks |
| AlertLookBack.BoundedLookBackIsExact | backend/app/services/alerts.py:61-118 | With a clock that never goes back a run leaves the store that searching the whole history at each firing would leave |
| AlertThrottle.RunsAreThrottled | backend/app/services/alerts.py:81-114 | Over any runs with fixed settings: fingerprints are unique, every eligible event is more than the cooldown after every earlier event of its rule and security, no rule exceeds its daily limit on any date, and the outbox holds one row for each eligible event |
| AlertEligibility.EligibleIff | backend/app/services/alerts.py:95-114 | Over any runs with fixed settings each event is eligible iff, when it was decided, no earlier event of its rule and security lay within the cooldown and the daily limit was not reached |
| AlertThrottle.EligibleIdsAreExact | backend/app/repositories/sql_alert.py:271-298 | The outbox contents named by that result are the ids of the eligible events, each once, in order |
| AlertReruns.RunRecordsFirings | backend/app/services/alerts.py:73-116 | A run only adds events, and afterwards every firing of it is on record |
| AlertFirings.RunAddsFirings | backend/app/services/alerts.py:60-118 | A run leaves an event of each end-of-day rule on each of its members that fires on the points of trading days up to the target, in order, and every event it adds is one of those |
| AlertFirings.RunSucceedsIff | backend/app/services/alerts.py:60-129 | A run reports one error for each task that raises, and success iff no end-of-day rule raises on one of its members |
| AlertReruns.RerunCreatesNothing | backend/app/services/alerts.py:93-94 | Evaluating a date again on the same data, for all or some of the rules, creates no event and no outbox row whatever ran in between |
| AlertReruns.CreatedCountsEvents | backend/app/services/alerts.py:80-119 | The count a run reports is the number of events it added |
| AlertEngine.AlertEvaluationService.EventState | backend/app/repositories/sql_alert.py:217-241 | The loop over the selected events gives the specified memory |
| AlertEngine.AlertEvaluationService.Evaluate | backend/app/services/alerts.py:61-129 | The nested loops over rules and securities, with their three dictionaries and counters, are the specified run |
| AlertWindow.LongestDaysSuffice | backend/app/services/alerts.py:71-73 | The number of days loaded is at least two and covers every rule |
| AlertWindow.LongestDaysIs | backend/app/services/alerts.py:71-73 | The number of days loaded is the largest count of consecutive days among the rules, a rule without one counting two, and two without rules |
| AlertWindow.WindowIsExact | backend/app/services/alerts.py:73-91 | A rule decides on the loaded window as on the whole visible history when enough of the window is visible, or all of the history is |
| AlertWindow.OpenWindowIsExact | backend/app/repositories/sql_alert.py:119-162 | In particular when no loaded row lies on a closed day |
| AlertWindow.ClosedDayCosts | backend/app/services/alerts.py:82-91 | A rule that asks for all the days loaded says nothing when one of them is closed |
| Ingestion.UniqueIsFirstValid | backend/app/services/daily_price_ingestion.py:95-111 | What is kept under a security and date is the first acceptable record, once |
| Ingestion.KnownGroupIsPut | backend/app/repositories/sql_price.py:67-112 | The upsert of a known security puts every record of its group and counts them by their fate against the table before the run |
| Ingestion.UnknownGroupIsRejected | backend/app/services/daily_price_ingestion.py:126-134 | A security missing from the master writes nothing and rejects its whole group |
| Ingestion.FetchedIsAccountedFor | backend/app/services/daily_price_ingestion.py:93-139 | No run fails on a repeated record, and fetched = rejected + non-stocks + inserted + updated + unchanged |
| Ingestion.TableIsOverridden | backend/app/repositories/sql_price.py:67-112 | The cell of each known security and date holds its first acceptable record in the scale of the columns unless that is a filtered non-stock, and otherwise what it held before |
| Ingestion.OtherCellsStay | backend/app/repositories/sql_price.py:67-112 | Cells of ids that no known security has are left alone |
| IngestionMeanings.RunCounts | backend/app/services/daily_price_ingestion.py:40-139 | The report counts, exactly: fetched records; rejected ones as repeated, incoherent, on closed days or of unknown securities; new rows and changed rows. It is PARTIAL iff it rejected any |
| IngestionMeanings.RowIs | backend/app/repositories/sql_price.py:67-112 | The row of a known security and date is left alone when the first passing record under it has its values, written with them rounded to eight and four decimals under the run's id when it has not, and kept when there is none or its code is no stock's |
| Reingestion.IngestKeepsForm | backend/app/repositories/models.py:359-376 | A run keeps a table in the scale of its columns, and keeps every stored row valid |
| Reingestion.SecondRunUpdatesUnfitting | backend/app/repositories/sql_price.py:97-110 | An identical second run under any run id leaves all values, inserts nothing, rejects the same and updates exactly the accepted records of known securities with more digits than their columns |
| Reingestion.SecondRunIsQuietIff | backend/app/repositories/sql_price.py:97-110 | The second run updates nothing iff every accepted record of a known security fits its columns |
| Reingestion.EveryLaterRunUpdates | backend/app/repositories/sql_price.py:97-110 | After any number of identical runs the next one updates the same records again |
| Reingestion.FiveDecimalsWitness | backend/app/repositories/sql_price.py:97-110 | One record with a turnover of 1.00001, sent twice, is inserted and then updated |
| Prices.StoringKeepsValidity | backend/app/services/daily_price_ingestion.py:21-38 | Rounding to the scale of the columns keeps a valid record valid and traded or not as before |
| Ingestion.SqlPriceRepository.Synchronize | backend/app/repositories/sql_price.py:67-112 | The loop over prefetched rows, kept up to date as it writes in the scale of the columns, is the specified upsert of the table, with its early stops |
| Ingestion.DailyPriceIngestionService.Synchronize | backend/app/services/daily_price_ingestion.py:93-139 | Filtering, grouping and group-by-group upserts are the specified run |
| Calendar.SameWeekIffSameMonday | backend/app/services/candle_aggregation.py:50-52 | Two days have the same ISO year and week iff their weeks start on the same Monday |
| Calendar.WeekOneHasJanuaryFourth | backend/app/services/candle_aggregation.py:50-52 | Week 1 of an ISO year is the week with 4 January |
| Calendar.WeeksSucceed | backend/app/services/candle_aggregation.py:50-52 | The week after a week is the next of its ISO year or the first of the next |
| Calendar.DatesSucceed | backend/app/services/candle_aggregation.py:53-54 | Day 1 is 1 January of year 1, and each day is followed by the next of its month, the first of the next month, or the first of the next year |
| Candles.PeriodsPartitionDays | backend/app/services/candle_aggregation.py:38-56 | Weekly and monthly candles ascend strictly by date and merge groups that split the days into consecutive stretches, one for each period with a day |
| Candles.DaysAscend | backend/app/services/candle_aggregation.py:41-47 | Daily candles ascend strictly by date when the records have distinct dates |
| CandleMeanings.DaysAre | backend/app/services/candle_aggregation.py:8-47 | The daily candles on either basis, exactly: one for each record with all four prices of the basis, with those prices and the record's date, volume and turnover, by date and among equal dates by arrival |
| Candles.ArrivalOrderIsIrrelevant | backend/app/services/candle_aggregation.py:41-56 | Records with distinct dates give the same candles in whatever order they arrive |
| Candles.MergeSummarises | backend/app/services/candle_aggregation.py:58-79 | A merged candle opens as its first day, closes and is dated as its last, and its high and low are reached by some day and exceeded by none |
| Candles.MergeOfMerges | backend/app/services/candle_aggregation.py:58-79 | Merging the candles of consecutive groups is merging all of their days |
| Candles.AggregationConserves | backend/app/services/candle_aggregation.py:38-79 | Weekly or monthly candles merged once more give the candle of all days: range, volume and turnover are conserved |
| Candles.KnownIff | backend/app/services/candle_aggregation.py:61-70 | A merged volume or turnover is known iff every day's is |
| Candles.ValidatedIffCoherent | backend/app/services/daily_price_ingestion.py:21-38 | A record passes validation with a trade iff its raw candle has low <= open, close <= high and no negative volume |
| Candles.ValidatedPricesGiveCoherentCandles | backend/app/services/candle_aggregation.py:38-79 | Validated prices give raw candles with low <= open, close <= high at every interval |
| Candles.Aggregate | backend/app/services/candle_aggregation.py:38-56 | The loops over the sorted records, the dictionary of groups and the merges give the specified candles |
| Registry.OwnersFollowHistory | backend/app/adapters/shioaji_realtime_provider.py:47-74 | Over any actions no entry has an empty owner set and an owner is in it iff the owner's last relevant action acquired it |
| Registry.ActiveIffHeld | backend/app/adapters/shioaji_realtime_provider.py:72-74 | An identity is active iff somebody holds it |
| Registry.SameKeyIff | backend/app/adapters/shioaji_realtime_provider.py:57-74 | Two keys name the same security iff they differ in case only |
| Registry.ConnectedIff | backend/app/adapters/shioaji_realtime_provider.py:140-160 | The provider is connected after a run iff its last connection attempt met only resolvable securities and no failure event or shutdown came later |
| Registry.ShioajiRealtimeProvider.Acquire | backend/app/adapters/shioaji_realtime_provider.py:189-202 | Acquiring follows the registry and subscribes only identities the broker does not hold, so that a connected broker holds the active resolvable ones; it fails iff connected, some identity became active and the security does not resolve |
| Registry.ShioajiRealtimeProvider.AcquireSubscription | backend/app/adapters/shioaji_realtime_provider.py:204-209 | The same for one kind of quote |
| Registry.ShioajiRealtimeProvider.Release | backend/app/adapters/shioaji_realtime_provider.py:225-228 | Releasing follows the registry and unsubscribes only identities the broker holds, with the same agreement; it fails iff connected, some identity lost its last owner and the security does not resolve |
| Registry.ShioajiRealtimeProvider.ReleaseSubscription | backend/app/adapters/shioaji_realtime_provider.py:211-223 | The same for one kind of quote, also when the owner does not hold it |
| Registry.ShioajiRealtimeProvider.Connect | backend/app/adapters/shioaji_realtime_provider.py:140-160 | A connection attempt starts from an empty session, subscribes nothing twice, and succeeds iff every active security resolves, the broker then holding exactly the active identities |

## Left out

- One clock value for each push batch: the code reads the clock for every operation.
- Column types, nullability and lengths, and the parsing of UUIDs, numbers and times, are inputs of the sync model (`columnsOk`, `parseInt`, `parseTime`), and so are the two forms of a column value (`Schema`), of which only the laws in `SyncEffects.Lawful` are used.
- The order in which a bootstrap lists rows, and rows without an owner from before accounts existed.
- Negative page limits, which the API excludes (backend/app/api/sync.py:49-56).
- Writers that bypass the change log: import and export, portfolio consent, the claim of legacy data. They break the log invariants by construction.
- Concurrent transactions, sequence allocation between them and isolation levels: every service call is one step, and sequence order is commit order.
- Android's outbox and conflict states: a device is the fold of the changes it pulls.
- Decimal context rounding in payouts, averages and summed turnover, which are reals here; the 98% coverage thresholds are exact, not floating point.
- A daily price or turnover with too many integer digits for its column, which the database refuses; the scale of the columns is modelled.
- Message texts, titles and details of notifications and events; dedupe keys, fingerprints and checksums are tuples or left out.
- The queries behind market history, and how memberships are resolved: the points of each security and the memberships are inputs of a run, and what the bounded window costs is stated by lemmas beside it. The realtime alert engine is not part of this model.
- Rules written through sync without validation: the throttling result assumes validated settings.
- AlertMeanings.ValidIff: does not model the session scope of a rule, which realtime rules must leave at REGULAR (backend/app/domain/alert.py:169-173).
- The audit's historical gap scan and the counting queries behind market spot, derivatives, technicals, industry and duplicates: their counts are inputs.
- Failing broker calls other than an unresolvable contract, the quote stream, and the race between restoring and releasing.
- Upper-casing of security keys outside ASCII.
- Futures.SeriesIsOptimal: assumes counts that are not negative, which ingestion checks (backend/app/services/derivatives_ingestion.py:41-42); a negative count could rank below a missing one.
- SyncOutcomes.CreationOutcome: which column values the database accepts is an input (`columnsOk`), so is the security master.
- SyncConvergence.Convergence: agreement is exact only for pushes that pair no setting key with a null value and assign columns only values that are logged as they are stored, which are the two departures described above; the exact condition is proved for each operation and for every step of a run.
- An operation reads its row from the database. A row that the session still held in memory from an earlier operation of the same batch would show values as sent, which agree up to the stored form.
- Portfolio replay, technical indicators, screeners, comparison, authentication and the realtime hub.
