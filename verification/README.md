# Model of the capture extension, the licence client and the management backend

The repository holds a browser extension that captures credentials, a desktop client with a licence, and a
Django backend that both talk to. This project models the parts whose correctness lies in the order of events
or in the shape of data, and proves what they keep:

- `CaptureLifecycle`: the service worker that owns temporary tabs, as a state machine over suspended handlers,
  the serialised chain of writes, and recovery after the worker was killed.
- `LicenceLease`, `LeaseRenewer`, `LicenceLock`: what is derived from the stored licence state, the loop that
  keeps a lease alive, and the two-level lock around the rotating token.
- `PermissionCache`: cached permission answers under keys with two version counters that can lapse.
- `ParentForest`, `Departments`, `DepartmentStore`: rows that name their parent, and the department hierarchy
  under every request; the store updates the table in place and is proved against `Departments`.
- `TreeBuilders`, `RecursiveBuilder`: the one-pass and the recursive builder of nested lists.
- `SmsLimiter`, `WindowCounter`, `LoginGuard`: limiters over an expiring cache.
- `LogRotation`, `LogFolder`, `LogRotationLoss`: daily log files shared by several writers.
- `Bundle`: packing credentials as base64url of UTF-8, and back.
- `DictionaryCache`: cached lists of dictionary items and the requests that invalidate them.
- `NameCase`: conversion between snake case and camel case.
- `Wrappers`, `Intervals`: values that may be missing, and events counted in an interval, shared by the others.

Clocks are whole seconds, or days for log files, and a cache entry is missing from its expiry on. A step that the
code awaits, or that another thread, process or request can come between, is an event of its own in the
interleaved models (`CaptureLifecycle`, `LicenceLock`, `PermissionCache`, `LogRotation`); elsewhere requests come
one after the other. Random values, network answers, signatures and clocks are parameters of events or calls.

Where a promise does not hold, a lemma gives a run or an input that shows it, and the condition under which it
holds is proved instead:

- A licence that was revoked becomes usable again, up to its deadline, after a refused check-in whose text neither
  revokes nor is an error that sticks (`RevocationIsLifted`).
- With no stored lease expiry, a status read is not active and the next one at the same instant is
  (`UnstampedReadRevives`): the expiry is read before verification fills it in.
- With answers within d, the lease can lapse between two rounds if and only if the renew skew is more than one
  second shorter than pause and d together (`SkewExact`). The default of 120 seconds
  (backend-django/core/license/lease_token.py:52) is too short for any heartbeat of five minutes or more, whose
  pauses are at least 150 seconds.
- A status write-back outside the lock can overwrite a freshly rotated token (`OverlapLosesTheToken`); the tokens
  agree all along a run if and only if no write-back brings an old one back (`TokensAgreeIff`).
- A version counter that lapses and is incremented again brings old permission answers back
  (`LapseServesRevoked`); a lapse between the two reads is exactly what makes a version value stale
  (`SameVersionCountsAll`).
- Re-parenting an inner department leaves level and path of everything below it wrong (`EditStrandsBelow`) until
  it is disabled (`DisablingRepairs`).
- The rate limiter is documented as a number of requests per window, but counts until a whole window has
  passed without any (`TrickleIsRefused`).
- Two log writers on one file lose text when one of them was silent for longer than archives are kept
  (`SilentTeeLosesText`).
- Moving an item into another dictionary leaves the cached list of the new one stale (`UpdateFreshExactly`).
- Killing the worker between the creation of a tab and the write of its record orphans the tab
  (`KillCanLoseATab`); which kills and recoveries lose nothing is proved exactly (`NothingLostIff`).
- The two builders of nested lists disagree on rows without a root (`CycleDiffers`) and on rows that name a missing
  parent; `SameForestExact` says when they agree.

## Model

| member | source | states |
|---|---|---|
| `CaptureLifecycle.OpenTabsAreTracked` | browser-extension/douyin-cred-extractor/capture-lifecycle.js:14-72 | in every interleaving of creates, finish, disconnects, failing removals, writes, kills and recovery, an open tab of the protocol is owned, or its create continuation is pending, or recovery still has it to handle, or a kill orphaned it |
| `CaptureLifecycle.RemovesOnlyOwnTabs` | browser-extension/douyin-cred-extractor/capture-lifecycle.js:14-33 | `remove` is only ever applied to tabs the browser created for this protocol; `owned` and the stored record hold such tabs only, and only for the two capture pages |
| `CaptureLifecycle.AtMostThreeCreates` | browser-extension/douyin-cred-extractor/capture-lifecycle.js:57-62 | no port ever makes more than three create calls, however its messages interleave |
| `CaptureLifecycle.DrainedPortLeavesNothing` | browser-extension/douyin-cred-extractor/capture-lifecycle.js:42-69 | once a port is closed and all its handlers have run out, no tab made through it is open unless removing it failed, also if it was created after the disconnect or after the snapshot the cleanup took |
| `CaptureLifecycle.DrainedRecordIsOwned` | browser-extension/douyin-cred-extractor/capture-lifecycle.js:10-13 | when the write chain has drained without failures, the stored record equals `owned`, although each write takes its snapshot late |
| `CaptureLifecycle.RecoveryTakesRecord` | browser-extension/douyin-cred-extractor/capture-lifecycle.js:24-31 | a restarted worker takes over exactly the well-formed entries among the first 30 of the record |
| `CaptureLifecycle.RecordSettledBeforeCreates` | browser-extension/douyin-cred-extractor/capture-lifecycle.js:24-33 | before any tab is created after a restart, every recorded tab that was taken over is closed or owned again |
| `CaptureLifecycle.CarefulRunsLoseNothing` | browser-extension/douyin-cred-extractor/capture-lifecycle.js:8-69 | if every kill finds the owned tabs and those in creation in the storage and every recovery looks at all open tabs in the record, every open tab is owned, in creation or recorded in every state |
| `CaptureLifecycle.NothingLostIff` | browser-extension/douyin-cred-extractor/capture-lifecycle.js:8-69 | nothing is lost all along a run if and only if every event is careful in that sense, no create call is pending at a kill, and tab ids are proper |
| `CaptureLifecycle.KillKeepsOpenTabsIff` | browser-extension/douyin-cred-extractor/capture-lifecycle.js:8-33 | after a kill every open tab made is owned, in creation or awaited if and only if what survives in the storage holds every open tab that was owned or in creation |
| `CaptureLifecycle.RestIsCareful` | browser-extension/douyin-cred-extractor/capture-lifecycle.js:8-33 | a kill at rest or during recovery is always careful |
| `CaptureLifecycle.KillCanLoseATab` | browser-extension/douyin-cred-extractor/capture-lifecycle.js:62-67 | a run in which a kill between the creation of a tab and the write of its record leaves the tab open and unknown |
| `CaptureLifecycle.InvStep` | browser-extension/douyin-cred-extractor/capture-lifecycle.js:34-72 | the combined invariant on ports, continuations, recovery, chain and tabs is kept by every event |
| `CaptureLifecycle.WorkerOkStep` | browser-extension/douyin-cred-extractor/capture-lifecycle.js:40-69 | every event keeps each continuation consistent with its port: counts, tickets of writes, closed flags, pending cleanups |
| `CaptureLifecycle.TabOkStep` | browser-extension/douyin-cred-extractor/capture-lifecycle.js:42-69 | every event keeps each open tab in the hands of `owned`, a pending create, the record, or its port |
| `CaptureLifecycle.RecordOkStep` | browser-extension/douyin-cred-extractor/capture-lifecycle.js:10-13 | while no handler owes a write, the latest snapshot on its way to the record is what is owned |
| `CaptureLifecycle.Serve` | browser-extension/douyin-cred-extractor/capture-lifecycle.js:54-62 | handling a message after recovery leaves the record alone or makes the handler owe a write |
| `CaptureLifecycle.Adopt` | browser-extension/douyin-cred-extractor/capture-lifecycle.js:62-67 | a created tab is refused and left alone if its id is no safe integer; otherwise it is owned, and withdrawn again with a write owed if the port has closed, or listed at its port with a write appended |
| `CaptureLifecycle.AfterRemove` | browser-extension/douyin-cred-extractor/capture-lifecycle.js:14-22 | after a removal a handler that owed a write has appended it or still owes it |
| `LicenceLease.AllowedUpToDeadline` | backend-django/core/client/license_auth.py:465-498 | for an activated state that is neither revoked nor stuck and whose lease verifies, business use is allowed exactly up to the later of lease expiry and grace limit, and the state is active exactly up to the lease expiry |
| `LicenceLease.WriteBackKeepsDeadline` | backend-django/core/client/license_auth.py:501-537 | the write-back of a status read keeps such a state steady and moves neither limit |
| `LicenceLease.WriteBackKeepsLeaseIff` | backend-django/core/client/license_auth.py:398-421 | a status read keeps the stored lease expiry if and only if verification has nothing to fill in or nothing is written back |
| `LicenceLease.UnstampedReadRevives` | backend-django/core/client/license_auth.py:417-468 | the expiry is read before verification fills it in: with no stored expiry, a first read says not active and the next read at the same instant says active |
| `LicenceLease.GrantIsSteady` | backend-django/core/client/license_auth.py:424-462 | a check-in whose lease verifies leaves a steady state with the granted expiry |
| `LicenceLease.BadGrantSticks` | backend-django/core/client/license_auth.py:424-484 | a check-in whose lease does not verify leaves a state that reads invalid at any later time |
| `LicenceLease.LeaseErrorsHoldNoKeyword` | backend-django/core/client/license_auth.py:381-389 | the three lease errors contain none of the keywords by which a refusal is classified |
| `LicenceLease.TokenErrorsAreInvalid` | backend-django/core/client/license_auth.py:381-389 | the two token errors are classified as invalid, not as revoked or expired |
| `LicenceLease.RefusalKeepsSteadyIff` | backend-django/core/client/license_auth.py:624-644 | a refused check-in keeps the state steady if and only if its text does not revoke, is no token error, and is no lease error met without grace; it never moves the deadline |
| `LicenceLease.RevocationIsLifted` | backend-django/core/client/license_auth.py:475-479 | revocation is not permanent: after any refused check-in on a revoked state, use is allowed if and only if the deadline has not passed and the text neither revokes nor is an error that sticks |
| `LicenceLease.HarmlessStep` | backend-django/core/client/license_auth.py:381-644 | a status read or harmless refusal keeps the state steady, moves no limit, and shows active, grace or expired by the two limits alone |
| `LicenceLease.DeadlineHoldsOverRuns` | backend-django/core/client/license_auth.py:465-644 | after any sequence of status reads and harmless refusals, use is allowed exactly up to the deadline of the last grant |
| `LicenceLease.ObservedStatesOnlyAge` | backend-django/core/client/license_auth.py:465-512 | along such a run the observed states only go from active to grace to expired |
| `LicenceLease.Client.PublicStatus` | backend-django/core/client/license_auth.py:501-537 | reports the derived state of the stored file and leaves the written-back file |
| `LicenceLease.Client.Refresh` | backend-django/core/client/license_auth.py:585-644 | one check-in, skipped if nothing is due, leaves the granted or refused file after its closing status read |
| `LicenceLease.Client.Activate` | backend-django/core/client/license_auth.py:554-581 | an activation applies the grant; a refused one changes nothing |
| `LicenceLease.Client.Deactivate` | backend-django/core/client/license_auth.py:648-668 | whatever the server says, the file is reset and reads unactivated |
| `LeaseRenewer.SleepSeconds` | backend-django/core/client/license_auth.py:671-680 | every pause of the loop lies between 20 and 300 seconds |
| `LeaseRenewer.GrantCovers` | backend-django/core/client/license_auth.py:585-623 | a grant answered within d and lasting the longest pause and 2d covers every wake-up within that pause of its answer |
| `LeaseRenewer.RoundCovers` | backend-django/core/client/license_auth.py:585-623 | one round of the loop that finds the file covered leaves it covered for the next one, whether or not it checks in |
| `LeaseRenewer.RenewerLoop` | backend-django/core/client/license_auth.py:671-680 | with each due check-in answered within d, attempts that raise and their pauses of 60 seconds included, pauses of at most `sleep`, a renew skew of at least `sleep - 1 + d` and grants of at least `sleep + 2d`, the derived state is active at every instant from the activation on, for any number of rounds |
| `LeaseRenewer.ShortSkewLapses` | backend-django/core/client/license_auth.py:597-605 | with any smaller skew there is a file, good for a check-in now, for which a round skips the check-in, sleeps, and is answered after the expiry |
| `LeaseRenewer.SkewExact` | backend-django/core/client/license_auth.py:597-605 | for every heartbeat: all skipped rounds keep the state active until the next answer if and only if the skew is at least the pause and d less one second |
| `LicenceLock.LocksStep` | backend-django/core/client/license_auth.py:56-104 | every step, crashes and timeouts included, keeps the holder of the lock file the only thread in a section and the holder of its mutex |
| `LicenceLock.SectionsNeverOverlap` | backend-django/core/client/license_auth.py:56-104 | for any number of threads and processes, two read-request-publish sections never overlap |
| `LicenceLock.OneContenderPerProcess` | backend-django/core/client/license_auth.py:56-60 | of each process at most one thread waits for or holds the lock file |
| `LicenceLock.TokenStep` | backend-django/core/client/license_auth.py:553-668 | every step that loses no answer keeps the stored token and the token last issued in agreement, up to the section that is about to publish, unless it is a write-back of an old token |
| `LicenceLock.TokensAgreeIff` | backend-django/core/client/license_auth.py:501-541 | while no answer is lost, stored and issued token agree in every state of a run if and only if every unlocked write-back writes the token it finds stored, or comes just before a publish |
| `LicenceLock.BadSaveBreaks` | backend-django/core/client/license_auth.py:504-541 | any other write-back leaves a stored token that is not the one issued |
| `LicenceLock.StoredTokenIsLastIssued` | backend-django/core/client/license_auth.py:206-219 | on runs without a lost answer in which no unlocked status write-back brings an old token back, the stored token is the last one issued whenever no section is publishing; status reads that overlap a section and write nothing, or the token they find, are allowed |
| `LicenceLock.CheckInIsAccepted` | backend-django/core/client/license_auth.py:585-623 | on such runs the server accepts every check-in |
| `LicenceLock.CheckInRotates` | backend-django/core/client/license_auth.py:585-623 | from a quiet state a check-in can be completed and leaves the next token stored |
| `LicenceLock.OverlapLosesTheToken` | backend-django/core/client/license_auth.py:504-541 | a run in which the unlocked write-back of a status read overwrites the token published meanwhile |
| `PermissionCache.AnswersAreRecent` | backend-django/common/fu_auth.py:372-400 | for every answer, cached or not, the run has a state in which the database gave the user certain roles and the same or a later one in which it gave these roles that answer, and the answer was given at most 300 seconds plus the longest request after the first of them |
| `PermissionCache.AnswersAreFresh` | backend-django/common/fu_auth.py:372-400 | for the user version and the global one: the read an answer stems from counted every invalidation that the request's read did if and only if the version did not lapse between the two, and then the answer includes every invalidation made before the request read that version |
| `PermissionCache.QuietDayIsFresh` | backend-django/common/fu_cache.py:600-647 | in particular an answer is fresh if no invalidation lies exactly one version lifetime before the span between the two reads |
| `PermissionCache.SameVersionCountsAll` | backend-django/common/fu_cache.py:613-659 | of two reads of one version value the writer's counted all the invalidations that the reader's did if and only if no lapse lies between them |
| `PermissionCache.LapsesFollowBumps` | backend-django/common/fu_cache.py:600-647 | a version lapses exactly a day after one of its invalidations, so none does if no invalidation lies a day before |
| `PermissionCache.InvStep` | backend-django/common/fu_auth.py:354-404 | every read, query, store, invalidation, database change and passing of time keeps each cached answer and each request justified |
| `PermissionCache.LapseServesRevoked` | backend-django/common/fu_cache.py:625-647 | a reachable state in which a request that began after the invalidation is told yes although the role is gone: the lapsed counter had come back to the old value |
| `ParentForest.BelowExact` | backend-django/core/dept/dept_model.py:186-197 | what is collected below a row is, without repetition, exactly what has the row among its ancestors |
| `ParentForest.DepthBounded` | backend-django/core/dept/dept_model.py:177-184 | a chain of ancestors is shorter than the number of rows |
| `ParentForest.ChainDistinct` | backend-django/core/dept/dept_model.py:177-184 | no row is its own ancestor and no ancestor is listed twice |
| `ParentForest.ReparentExact` | backend-django/core/dept/dept_api.py:147-154 | giving a row another parent keeps the rows acyclic if and only if the row is neither that parent nor one of its ancestors |
| `ParentForest.RemoveLeafKeeps` | backend-django/core/dept/dept_model.py:215-217 | removing a row without children changes no other chain |
| `Departments.HierarchyStaysAcyclic` | backend-django/core/dept/dept_api.py:54-203 | after any sequence of create, delete, batch delete, replace, patch, move and status requests every parent exists and no department is its own ancestor |
| `Departments.EditedOk` | backend-django/core/dept/dept_api.py:147-154 | every edit that passes the checks puts the department under nothing or under a department that is not below it |
| `Departments.LevelsHoldOverRuns` | backend-django/core/dept/dept_model.py:156-164 | in every state reached without re-parenting an inner department, level is the number of ancestors and path spells their ids root-first |
| `Departments.ConsistentStep` | backend-django/core/dept/dept_model.py:156-164 | creates, deletes, status changes and edits that re-parent leaves only keep every level and path right |
| `Departments.EditKeepsPlaces` | backend-django/core/dept/dept_model.py:156-164 | re-parenting any department keeps level and path right for everything that is not strictly below it |
| `Departments.EditStrandsBelow` | backend-django/core/dept/dept_api.py:651-675 | what lies strictly below an edited department has a right level and path afterwards if and only if its parent stayed the same |
| `Departments.SpellInjective` | backend-django/core/dept/dept_model.py:160-163 | a path determines the chain of ids it spells |
| `Departments.DisablingRepairs` | backend-django/core/dept/dept_api.py:544-556 | disabling a department whose parent has a right level and path disables everything below it and puts right every level and path there |
| `DepartmentStore.Store.Save` | backend-django/core/dept/dept_model.py:156-164 | saving stores level and path computed from what is stored for the parent |
| `DepartmentStore.Store.GetAncestors` | backend-django/core/dept/dept_model.py:177-184 | the loop ends and returns the chain of ancestors, nearest first |
| `DepartmentStore.CollectChildren` | backend-django/core/dept/dept_model.py:190-194 | the recursion ends and appends what is below a department, parents before children |
| `DepartmentStore.Store.GetDescendants` | backend-django/core/dept/dept_model.py:186-197 | lists, without repetition, exactly the departments that have this one among their ancestors |
| `DepartmentStore.Store.Create` | backend-django/core/dept/dept_api.py:55-76 | answers and changes the table as specified: missing or disabled parent, empty parent id, new root or child |
| `DepartmentStore.Store.Delete` | backend-django/core/dept/dept_api.py:80-98 | removes a department only if it has neither children nor users |
| `DepartmentStore.Store.BatchDelete` | backend-django/core/dept/dept_api.py:102-127 | deletes one by one what can be deleted at its turn; counts and failures add up |
| `DepartmentStore.Store.Put` | backend-django/core/dept/dept_api.py:131-158 | replaces a department; a missing parent id leaves the parent as it is |
| `DepartmentStore.Store.Patch` | backend-django/core/dept/dept_api.py:162-203 | changes the given fields; a null parent id makes a root, a null status fails |
| `DepartmentStore.Store.Move` | backend-django/core/dept/dept_api.py:652-677 | moves a department, to the root for an empty or "null" id |
| `DepartmentStore.Store.SetStatus` | backend-django/core/dept/dept_api.py:536-560 | sets the status one by one, with everything below when disabling; unknown ids are skipped, and the count is that of the departments set, one for each time |
| `TreeBuilders.ListToTree` | backend-django/core/data_source/data_source_service.py:691-724 | hangs every row under its parent or among the roots, in the order of the rows |
| `TreeBuilders.OnePassShowsForest` | backend-django/core/data_source/data_source_service.py:697-724 | with unique ids, whatever the parents are, the result is a finite forest that holds each row whose parents lead to a root exactly once, and rows on or below a cycle nowhere |
| `TreeBuilders.ForestExact` | backend-django/core/data_source/data_source_service.py:702-724 | the forest below all roots holds exactly the rows that are not on or below a cycle, once each |
| `RecursiveBuilder.Rows.AddNode` | backend-django/common/utils/list_to_tree.py:9-24 | ends, gives every row at and below the node its complete list of children or marks it as a leaf, and touches no other row |
| `RecursiveBuilder.Rows.ListToTree` | backend-django/common/utils/list_to_tree.py:59-79 | returns the rows without a parent, nested, or all rows as they are if there is no root; what is returned is one definite forest |
| `RecursiveBuilder.OnePassRenders` | backend-django/core/data_source/data_source_service.py:702-724 | the result of the one-pass builder is the forest that the comparison takes for it |
| `RecursiveBuilder.RendersOne` | backend-django/common/utils/list_to_tree.py:59-79 | lists of children and a list of tops are at most one forest, so the comparison of forests is one of results |
| `RecursiveBuilder.SameForestExact` | backend-django/common/utils/list_to_tree.py:59-79 | for rows with unique ids both builders return the same ordered forest if and only if, where some row is a root, every parent that a row names is a row and none of the values that mean "no parent", and where none is, no row names such a parent |
| `RecursiveBuilder.CycleDiffers` | backend-django/common/utils/list_to_tree.py:75-79 | of two rows that are each other's parents the one-pass builder returns nothing and the recursive one both rows without children |
| `SmsLimiter.PrunedDecidesAsFull` | backend-django/common/utils/sms_util.py:196-238 | in every sequential run the pruned list with its renewed 3600-second expiry gives each request the verdict of a complete log |
| `SmsLimiter.SendsAreBounded` | backend-django/common/utils/sms_util.py:209-219 | recorded sends are at least 60 seconds apart and any half-open hour holds at most five |
| `SmsLimiter.HourLaterAllowed` | backend-django/common/utils/sms_util.py:209-219 | an hour after the last recorded send a request is always allowed |
| `SmsLimiter.Limiter.CheckSendFrequency` | backend-django/common/utils/sms_util.py:196-219 | decides by the recent times of the cache entry |
| `SmsLimiter.Limiter.RecordSendFrequency` | backend-django/common/utils/sms_util.py:221-238 | appends, prunes and renews the entry |
| `SmsLimiter.Limiter.Send` | backend-django/common/utils/sms_util.py:103-136 | checks, sends and records, with the verdict of the complete log |
| `WindowCounter.AdmittedExactly` | backend-django/common/fu_cache.py:469-489 | an attempt is admitted if and only if a whole window has passed since the last counted one or the current stretch of events is shorter than the limit |
| `WindowCounter.CountsAreBounded` | backend-django/common/fu_cache.py:469-489 | any half-open interval of a window holds at most `limit` of the events counted since the last clear |
| `WindowCounter.PauseIsEnough` | backend-django/common/fu_cache.py:471-482 | an attempt a window after the last counted event is always admitted |
| `WindowCounter.TrickleIsRefused` | backend-django/common/fu_cache.py:471-482 | the window does not slide: `limit` requests and one more, of which no window holds more than two, are counted, and the last one is refused |
| `WindowCounter.RateLimiter.CheckRateLimit` | backend-django/common/fu_cache.py:460-489 | admits exactly as the log says and touches no other key |
| `WindowCounter.RateLimiter.CheckRefresh` | backend-django/core/auth/auth_service.py:283-291 | the same for token refreshes, 50 in 300 seconds |
| `LoginGuard.CounterSees` | backend-django/common/fu_auth.py:68-79 | the counter of a user name is that of the logins which were not turned away by a locked address |
| `LoginGuard.FailuresAreBounded` | backend-django/common/fu_auth.py:56-73 | without a success, any half-open five minutes hold at most 15 recorded failures of one user name |
| `LoginGuard.LoginAdmittedExactly` | backend-django/common/fu_auth.py:45-65 | a login gets through exactly if its address is not locked out and the log of failures admits it |
| `LoginGuard.LockedForItsDuration` | backend-django/common/fu_auth.py:51-63 | once refused for too many failures, an address is refused for 15 minutes whatever the user name, and refused logins do not prolong that |
| `LoginGuard.Guard.Authenticate` | backend-django/core/auth/auth_service.py:67-181 | counts a failure of any kind, clears the counter on success |
| `LoginGuard.Guard.CheckLoginAttempt` | backend-django/common/fu_auth.py:45-65 | answers as specified and locks the address when the limit is reached |
| `LogRotation.NothingOverwritten` | dyauthreply-client/launcher/launcher_logging.py:99-112 | in every run each file holds exactly what was written to it, in order, and keeps one name until pruning deletes it; a tee can always write |
| `LogRotation.PromptRunsLoseNothing` | dyauthreply-client/launcher/launcher_logging.py:114-141 | while no tee rolls over later than archives are kept, every write goes to a file that has a name and a deleted file has not grown since |
| `LogRotation.LateRolloverStrands` | dyauthreply-client/launcher/launcher_logging.py:114-125 | a rollover takes the file of another tee of the same day away if and only if it is late and they share the live file |
| `LogRotation.OneTeeKeepsDays` | dyauthreply-client/launcher/launcher_logging.py:67-125 | with one tee at a time archives hold only the day in their name and only text older than the limit is ever deleted |
| `LogRotation.PruneNames` | dyauthreply-client/launcher/launcher_logging.py:47-59 | a file has a name after pruning if and only if it had one before without a date older than the cutoff |
| `LogRotation.Prune` | dyauthreply-client/launcher/launcher_logging.py:40-42 | the live file keeps its name whatever is pruned |
| `LogRotation.FilesOkStep` | dyauthreply-client/launcher/launcher_logging.py:67-141 | starts, rollovers, writes and pruning keep files and names one to one |
| `LogRotationLoss.SilentTeeLosesText` | dyauthreply-client/launcher/launcher_logging.py:198-203 | a run of the two tees the launcher sets up, one silent for eight days, that deletes text of the same day and loses later writes |
| `LogFolder.Folder.FreeName` | dyauthreply-client/launcher/launcher_logging.py:99-108 | the search ends at the first archive name of the date that is free |
| `LogFolder.Folder.PruneOldLogs` | dyauthreply-client/launcher/launcher_logging.py:37-61 | deletes exactly the names with a date before the cutoff |
| `LogFolder.Folder.MaybeRollover` | dyauthreply-client/launcher/launcher_logging.py:114-125 | archives under the date of the tee, reopens and prunes when the day has changed |
| `LogFolder.Folder.WriteData` | dyauthreply-client/launcher/launcher_logging.py:127-141 | nothing for empty data, else one write after a possible rollover |
| `LogFolder.Folder.StartTeeAs` | dyauthreply-client/launcher/launcher_logging.py:67-97 | archives a live file of another day or too large under its date of change, then opens and prunes |
| `Bundle.UnpackUndoesPack` | browser-extension/douyin-cred-extractor/popup.js:487-492 | a text can be packed if and only if it has no lone surrogate, and then the decode steps give it back unchanged |
| `Bundle.PackedIsUrlSafe` | browser-extension/douyin-cred-extractor/popup.js:488-491 | what is packed consists of letters, digits, `-` and `_` only |
| `Bundle.PackInjective` | browser-extension/douyin-cred-extractor/popup.js:840 | different texts are packed differently |
| `Bundle.AtobUndoesBtoa` | browser-extension/douyin-cred-extractor/popup.js:164-165 | the forgiving decoder undoes the encoder on all byte sequences (section 4 of RFC 4648) |
| `Bundle.DropRepad` | browser-extension/douyin-cred-extractor/popup.js:164 | re-padding adds exactly the padding that decoding drops (section 3.2 of RFC 4648) |
| `Bundle.Utf8RoundTrip` | browser-extension/douyin-cred-extractor/popup.js:165 | UTF-8 decoding undoes encoding on all scalar values (section 3 of RFC 3629) |
| `Bundle.Utf8Canonical` | browser-extension/douyin-cred-extractor/popup.js:165 | decoding accepts nothing but what encoding produces: no overlong forms, no surrogates |
| `Bundle.UnpackIgnoresLastBits` | browser-extension/douyin-cred-extractor/popup.js:163-166 | the decoder does not look at unused bits: two packed texts decode alike |
| `DictionaryCache.ListingIsExact` | backend-django/core/dict_item/dict_item_api.py:187-218 | in every run in which items keep their dictionary, listing by code gives exactly the rows of the database, also after a code was renamed or used again |
| `DictionaryCache.UpdateFreshExactly` | backend-django/core/dict_item/dict_item_api.py:103-141 | a successful item update leaves all cached lists fresh if and only if the item does not move into an existing dictionary whose list is cached |
| `DictionaryCache.FreshStep` | backend-django/core/dict/dict_api.py:54-115 | every other request on dictionaries and items, failing ones included, keeps all cached lists fresh |
| `DictionaryCache.ValidStep` | backend-django/core/dict/dict_api.py:33-115 | every request keeps codes and item ids unique |
| `DictionaryCache.Store.UpdateDictRow` | backend-django/core/dict/dict_api.py:81-115 | renames a dictionary and drops the list of its old code |
| `DictionaryCache.Store.DeleteDictRow` | backend-django/core/dict/dict_api.py:54-77 | deletes a dictionary with its items and drops its list |
| `DictionaryCache.Store.CreateItemRow` | backend-django/core/dict_item/dict_item_api.py:38-65 | stores an item, also of a missing dictionary, where the request then fails |
| `DictionaryCache.Store.UpdateItemRow` | backend-django/core/dict_item/dict_item_api.py:103-141 | changes an item and drops the list of the dictionary it was in before |
| `DictionaryCache.Store.DeleteItemRow` | backend-django/core/dict_item/dict_item_api.py:69-99 | deletes an item and drops the list of its dictionary |
| `DictionaryCache.Store.ListItems` | backend-django/core/dict_item/dict_item_api.py:188-218 | answers from the cache or the database and caches the answer |
| `NameCase.UpperCamelInvertible` | backend-django/common/utils/rule_convert.py:22-30 | for names of lower-case words, converting to upper camel case and back gives the name if and only if no two words in a row have one letter each |
| `NameCase.LowerCamelInvertible` | backend-django/common/utils/rule_convert.py:22-36 | for lower camel case the same holds of the words after the first |
| `NameCase.CamelForms` | backend-django/common/utils/rule_convert.py:27-36 | the camel forms are the words with capitals |
| `NameCase.UnderlineCamel` | backend-django/common/utils/rule_convert.py:22-24 | converting back restores the underscore before a word unless it and the word before have one letter each |

## Left out

- CaptureLifecycle: the client side in the popup, page scraping, and tab ids as text in the stored record; the port's sender check and messages without a valid id, which start no handler.
- CaptureLifecycle, LicenceLock and PermissionCache are step relations over states rather than objects, since their steps interleave.
- LicenceLease: time stamps that do not parse read as absent, signing and the hosted server are opaque, and profile fields other than the device fingerprint are carried along unseen.
- LeaseRenewer.RenewerLoop: a tick that raises after the state file was written; refusals by the server are part of `LicenceLease`.
- LicenceLock: a failing write of the state file, and the retry pause while waiting for the lock file; either waiting may end at any time by timeout.
- PermissionCache: an entry that the cache evicts before its expiry, and the mapping of paths and methods to routes; one invalidation is atomic.
- PermissionCache.AnswersAreFresh: says nothing about changes of permissions that are announced by clearing other cache keys only, because those touch neither counter.
- Departments: sort weights, department codes and their uniqueness, leaders and descriptive fields, the length limit of a stored path; whether a department has users is a parameter of deletion. A refusal for such a field changes nothing.
- Departments: the cached tree, search and the lists by id, which build on `get_ancestors` and the tree builders.
- TreeBuilders: item fields other than id and parent id, which both builders carry along.
- RecursiveBuilder.Rows.ListToTree: rows without an id or with repeated ids, which are different dictionaries with one name.
- `list_to_route_v5`, the other chart transforms of data sources, and nested value lookup: they would only add easy members.
- SmsLimiter: verification codes and the provider call; requests for one number come one at a time.
- WindowCounter: two requests that read the same count at the same time.
- LoginGuard: the log of logins and the lock on the account that is derived from it.
- LogRotation: I/O errors, other log files that the same pruning covers, console output.
- Bundle: JSON, and the percent-escapes between text and bytes, which are taken as one step each way.
- DictionaryCache: the cached list of all items and the cache warmer, dictionaries cached as objects, names and remarks; an entry may vanish at any time, which covers its expiry.
- NameCase: letters outside ASCII.
- Database managers, monitors, the scheduler, update and rollback, the messaging runtime: mostly I/O and delegation.
