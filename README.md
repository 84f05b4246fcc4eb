# Gift-for-you back end: notifications, funding lifecycle and expiry sweep

This project models the core of the Gift-for-you back end in Dafny and proves properties of that model. The back end is a Spring service where users open a gift funding and friends donate to it. The model covers four parts:

- **`NotificationService`** holds three maps:
  - a registry of open SSE connections ("emitters"), keyed by emitter id;
  - an event cache, used to replay events a client missed;
  - the store of persisted notifications.

  Its operations are `sseSubscribe`, `send` (persist, fan out, then optionally e-mail) and the replay in `sendLostData`, together with their helpers, plus the read/delete operations on the store, each of which checks ownership.
- **`FundingService`** covers the creation guard ("a user has at most one ACTIVE funding"), the initial status taken from the end date, lookups, the status-filtered listings and their sort direction, the not-found and owner checks of finish/update/delete, and the summary default.
- **`Scheduler.autoFinishFundings`** is the midnight sweep: it finishes every ACTIVE funding whose end date has come, hands one time-out notification per expired funding to the notification service when the owner agreed to e-mail, and calls `clearFundingCaches()` once, after the loop.
- **`FundingCreateRequestDto.toEntity`** converts a creation request into a funding. It strips commas from the target amount and parses it with `Integer.parseInt`.

The files, in dependency order:

- `results.dfy`: Option, Result and the exceptions the services throw.
- `javalang.dfy`: the `java.lang` behaviour the code relies on:
  - `String.startsWith`;
  - `replace(",", "")`;
  - `Integer.parseInt`;
  - `Long.toString`;
  - `String.compareTo`, which compares UTF-16 code units;
  - `equalsIgnoreCase`.
- `sequences.dfy`, `users.dfy`: small shared definitions.
- `notifications.dfy`: module `Notifications`, with class `NotificationService`.
- `fundings.dfy`: module `Fundings`, with the entity and `ToEntity`.
- `funding_services.dfy`: module `FundingServices`, with classes `FundingRepository` and `FundingService`.
- `scheduling.dfy`: module `Scheduling`, with class `Scheduler`.

**Inputs and modelling conventions**
- Clocks are parameters:
  - `System.currentTimeMillis()` is a `nat`;
  - `LocalDate.now()` is an `int` day number.
- The outcome of each SSE push is an oracle: the push of event `e` to emitter `k` fails exactly when `(k, e)` is in the parameter `fails`.
- The mail transport's outcome is the parameter `mailFails`.
- `saveToDatabase` always previews the fixed page `https://www.giftipie.me/` (`PREVIEW_LINK`). The `og:image` content it finds there is the parameter `ogImage`; `None` stands for the IOException. The saved `itemLink` is therefore always that page.
- The enum sources are not part of this model. `FundingStatus` is taken to have exactly the constants ACTIVE and FINISHED, and `NotificationType` exactly DONATION and FUNDING_TIME_OUT, the values the code uses. `ListingsPartition` relies on the first: with a third status, the two listings would no longer cover the table.
- Where the code iterates a map or a query result without a fixed order, the model visits the elements in the order `Enumerate` gives: each element exactly once, in an order nothing may rely on. The order taken is returned as a ghost out-parameter. This covers the `forEach` over emitters, the replay stream and the scheduler's list.

**Points where the code differs from what one might assume; the model follows the code**
- `send` writes the event cache under each *emitter id* (NotificationService.java line 82), not under the event id built on line 73.
- Replay selects cache keys with `lastEventId.compareTo(key) < 0`, which is a textual comparison, and it does not sort. Textual order matches time order only between clock readings with the same number of digits. `ReplayOrderIsTextual` shows both cases: `u_1000` sorts before `u_999`, so it is not replayed after it, but after `u_100`, so it is.
- A failed push throws, so it ends the fan-out. The remaining emitters and the e-mail step are not reached.
- Fan-out looks emitters up by the receiver's *nickname*, while `sseSubscribe` registers them under the login *username*.
- The emitter repository is not part of this model. Its lookups are modelled as prefix selection over maps, and its `save` and `saveEventCache` calls as map updates, the later write under a key winning.
- The `Funding` entity shown has neither a `user` nor a `showName` field, yet `saveToDatabase` calls `setUser` and `toEntity` passes `showName` to the builder. The model gives a funding its owner's id, which starts unset, and drops `showName`.

## Model

| member | source | states |
|---|---|---|
| JavaLang.StartsWith | src/main/java/com/giftforyoube/notification/service/NotificationService.java:76 | `startsWith`: the prefix is no longer than the text and equals its first characters (used by the repository's StartWith lookups and the replay filter) |
| JavaLang.RemoveChar | src/main/java/com/giftforyoube/funding/dto/FundingCreateRequestDto.java:37 | `replace(",", "")`: the result is no longer than the text and holds no comma |
| JavaLang.RemoveCharAppend | src/main/java/com/giftforyoube/funding/dto/FundingCreateRequestDto.java:37 | removing commas works piecewise over a concatenation |
| JavaLang.RemoveCharAbsent | src/main/java/com/giftforyoube/funding/dto/FundingCreateRequestDto.java:37 | text without a comma is left unchanged |
| JavaLang.ParseInt | src/main/java/com/giftforyoube/funding/dto/FundingCreateRequestDto.java:37 | every accepted value lies in the 32-bit `int` range |
| JavaLang.ParseIntValue | src/main/java/com/giftforyoube/funding/dto/FundingCreateRequestDto.java:37 | an accepted text is an optional sign followed by at least one digit, and the value is what they denote |
| JavaLang.ParseIntOfIntToString | src/main/java/com/giftforyoube/funding/dto/FundingCreateRequestDto.java:37 | every 32-bit value, printed in decimal, parses back to itself |
| JavaLang.DecimalValueOfNatToString | src/main/java/com/giftforyoube/notification/service/NotificationService.java:140-142 | a printed clock reading reads back as the same number |
| JavaLang.NatToStringInjective | src/main/java/com/giftforyoube/scheduler/Scheduler.java:45 | different numbers print differently |
| JavaLang.CompareTo | src/main/java/com/giftforyoube/notification/service/NotificationService.java:117 | `String.compareTo`: the difference of the first differing UTF-16 code units, or of the lengths when one text is a prefix of the other |
| JavaLang.CompareToZero | src/main/java/com/giftforyoube/notification/service/NotificationService.java:117 | `compareTo` is zero exactly on equal strings |
| JavaLang.CompareToAntisymmetric | src/main/java/com/giftforyoube/notification/service/NotificationService.java:117 | swapping the arguments negates `compareTo` |
| JavaLang.CompareToTransitive | src/main/java/com/giftforyoube/notification/service/NotificationService.java:117 | `compareTo < 0` is transitive |
| JavaLang.Utf16Injective | src/main/java/com/giftforyoube/notification/service/NotificationService.java:117 | different strings have different UTF-16 encodings |
| JavaLang.EqualsIgnoreCase | src/main/java/com/giftforyoube/funding/service/FundingService.java:93 | `equalsIgnoreCase`: same length, and each pair of characters equal, or equal after upper-casing, or equal after lower-casing their upper-case forms |
| Sequences.Enumerate | src/main/java/com/giftforyoube/notification/service/NotificationService.java:80 | an iteration order of a key set: every key exactly once, in an order callers cannot rely on |
| Notifications.ToResponse | src/main/java/com/giftforyoube/notification/service/NotificationService.java:84-86 | the response DTO: the notification's id, content, url, type, read flag and creation time |
| Notifications.NewEmitter | src/main/java/com/giftforyoube/notification/service/NotificationService.java:41-49 | a new emitter with `DEFAULT_TIMEOUT`, whose completion, time-out and error callbacks all delete by its own emitter id |
| Notifications.CreateTimeIncludeId | src/main/java/com/giftforyoube/notification/service/NotificationService.java:140-142 | the id starts with `name_` and the rest is the decimal clock reading |
| Notifications.CreateTimeIncludeIdInjective | src/main/java/com/giftforyoube/notification/service/NotificationService.java:140-142 | ids for one name are equal only for equal clock readings |
| Notifications.HasLostData | src/main/java/com/giftforyoube/notification/service/NotificationService.java:122-124 | there is lost data to replay exactly when Last-Event-ID is non-empty |
| Notifications.CreateNotification | src/main/java/com/giftforyoube/notification/service/NotificationService.java:103-111 | the new notification is unread and carries the given receiver, type, content and url |
| Notifications.StartingWith | src/main/java/com/giftforyoube/notification/service/NotificationService.java:76 | the lookup holds exactly the entries whose key has the prefix, with unchanged values |
| Notifications.DeleteStartingWith | src/main/java/com/giftforyoube/notification/service/NotificationService.java:47-49 | the deletion keeps exactly the entries whose key lacks the prefix |
| Notifications.TerminationsRemoveEmitter | src/main/java/com/giftforyoube/notification/service/NotificationService.java:47-49 | any non-empty sequence of completion/timeout/error callbacks equals one removal and leaves the emitter id absent |
| Notifications.ReplayKeys | src/main/java/com/giftforyoube/notification/service/NotificationService.java:115-117 | the replay selection: the cache keys starting with the username that compare above Last-Event-ID |
| Notifications.ReplaySkipsLastSeen | src/main/java/com/giftforyoube/notification/service/NotificationService.java:117 | the entry named by Last-Event-ID is never replayed |
| Notifications.ReplayPartition | src/main/java/com/giftforyoube/notification/service/NotificationService.java:115-118 | a cached key under the username is replayed exactly when it differs from Last-Event-ID and does not compare below it |
| Notifications.ReplayMonotone | src/main/java/com/giftforyoube/notification/service/NotificationService.java:117 | a later Last-Event-ID replays a subset of what an earlier one replays |
| Notifications.ReplayOrderIsTextual | src/main/java/com/giftforyoube/notification/service/NotificationService.java:117 | the comparison is textual: `u_1000` is not replayed after `u_999`, but is replayed after `u_100` |
| Notifications.FannedOut | src/main/java/com/giftforyoube/notification/service/NotificationService.java:80-88 | the pushes of one fan-out carry the same event, one per emitter, in visiting order |
| Notifications.Replayed | src/main/java/com/giftforyoube/notification/service/NotificationService.java:116-118 | each replayed entry is pushed under its own cache key, with the cached notification |
| Notifications.CacheWrites | src/main/java/com/giftforyoube/notification/service/NotificationService.java:82 | the event cache after writing the saved notification under each visited emitter id, in order |
| Notifications.CacheWritesEntries | src/main/java/com/giftforyoube/notification/service/NotificationService.java:80-82 | after the writes every visited emitter id maps to the saved notification and every other entry is untouched |
| Notifications.DeleteReadKeepsOthers | src/main/java/com/giftforyoube/notification/service/NotificationService.java:167-177 | bulk deletion leaves no read row of the user and keeps unread rows and other users' rows unchanged |
| Notifications.MarkedRead | src/main/java/com/giftforyoube/notification/service/NotificationService.java:161 | marking read sets that one flag and changes nothing else |
| Notifications.MarkedReadIdempotent | src/main/java/com/giftforyoube/notification/service/NotificationService.java:152-164 | reading twice leaves the store as reading once |
| Notifications.FindAllByReceiverOrderByCreatedAtDesc | src/main/java/com/giftforyoube/notification/service/NotificationService.java:147 | returns every row of the receiver exactly once, newest first |
| Notifications.NotificationService.SendNotification | src/main/java/com/giftforyoube/notification/service/NotificationService.java:127-138 | a push succeeds and is recorded with name "sse", or fails and removes exactly that emitter id |
| Notifications.NotificationService.SendLostData | src/main/java/com/giftforyoube/notification/service/NotificationService.java:114-119 | it pushes exactly the replay keys, each once, under its own key; the first failure removes the emitter and ends replay |
| Notifications.NotificationService.ReplayAll | src/main/java/com/giftforyoube/notification/service/NotificationService.java:116-118 | pushes the cached entries in the given order, each under its own key; the first failed push, at index `n`, removes the emitter and ends the replay |
| Notifications.NotificationService.SseSubscribe | src/main/java/com/giftforyoube/notification/service/NotificationService.java:35-61 | registers `username_<millis>`, pushes one handshake first, replays only for a non-empty Last-Event-ID, and a failed push removes the new emitter and raises NOTIFICATION_SEND_FAILED |
| Notifications.NotificationService.Terminate | src/main/java/com/giftforyoube/notification/service/NotificationService.java:47-49 | a fired callback removes the keys starting with its emitter id |
| Notifications.NotificationService.FanOut | src/main/java/com/giftforyoube/notification/service/NotificationService.java:80-88 | for each target, the cache is written under the emitter id before the push; the first failed push stops the loop, and its cache entry stays |
| Notifications.NotificationService.WriteAndPushAll | src/main/java/com/giftforyoube/notification/service/NotificationService.java:80-88 | for each emitter in the given order, writes the cache under its id and then pushes; the first failed push ends the loop, with its cache write kept and its emitter removed |
| Notifications.NotificationService.Send | src/main/java/com/giftforyoube/notification/service/NotificationService.java:65-100 | persists exactly one unread row before any push, for zero targets too; all targets are the nickname-prefixed emitters and get event `nickname_<now>`; NOTIFICATION_SEND_FAILED iff a push fails, and then no mail is sent; mail is sent iff the receiver agreed; a mail failure gives EMAIL_SEND_FAILED and the row stays |
| Notifications.NotificationService.GetNotifications | src/main/java/com/giftforyoube/notification/service/NotificationService.java:145-149 | all of the user's notifications and only those, each once, newest first |
| Notifications.NotificationService.ReadNotification | src/main/java/com/giftforyoube/notification/service/NotificationService.java:152-164 | NOTIFICATION_NOT_FOUND or UNAUTHORIZED_READ_NOTIFICATION with the store unchanged; otherwise only the read flag is set |
| Notifications.NotificationService.DeleteNotificationIsReadTrue | src/main/java/com/giftforyoube/notification/service/NotificationService.java:167-177 | READ_NOTIFICATION_LIST_NOT_FOUND when the user has no read row; otherwise exactly the user's read rows are removed |
| Notifications.NotificationService.DeleteNotification | src/main/java/com/giftforyoube/notification/service/NotificationService.java:180-190 | NOTIFICATION_NOT_FOUND or UNAUTHORIZED_DELETE_NOTIFICATION with the store unchanged; otherwise exactly that row is removed |
| Fundings.ToEntity | src/main/java/com/giftforyoube/funding/dto/FundingCreateRequestDto.java:28-42 | item fields from the item; request fields copied; `currentAmount` 0; the status as passed; owner unset; the amount in `int` range; fails (NumberFormatException) exactly when the comma-free text does not parse |
| Fundings.StrippedAmount | src/main/java/com/giftforyoube/funding/dto/FundingCreateRequestDto.java:37 | the target amount text with every comma removed, as handed to `parseInt` |
| Fundings.CommaIgnored | src/main/java/com/giftforyoube/funding/dto/FundingCreateRequestDto.java:37 | a comma anywhere in the amount changes nothing |
| Fundings.DigitsConvert | src/main/java/com/giftforyoube/funding/dto/FundingCreateRequestDto.java:37 | comma-free digits within range convert to their decimal value |
| Fundings.NegativeConverts | src/main/java/com/giftforyoube/funding/dto/FundingCreateRequestDto.java:37 | a leading minus is accepted, giving a negative target |
| Fundings.PlusConverts | src/main/java/com/giftforyoube/funding/dto/FundingCreateRequestDto.java:37 | a leading plus sign is accepted and ignored |
| Fundings.SignOnlyRejected | src/main/java/com/giftforyoube/funding/dto/FundingCreateRequestDto.java:37 | a sign with no digit after it is rejected |
| Fundings.CommaWrappedSignExample | src/main/java/com/giftforyoube/funding/dto/FundingCreateRequestDto.java:37 | ",-," is a bare sign once the commas are gone, and is rejected |
| Fundings.EmptyRejected | src/main/java/com/giftforyoube/funding/dto/FundingCreateRequestDto.java:37 | an amount that is empty once commas are removed is rejected |
| Fundings.NonDigitRejected | src/main/java/com/giftforyoube/funding/dto/FundingCreateRequestDto.java:37 | a non-digit other than one leading sign is rejected |
| Fundings.TooLargeRejected | src/main/java/com/giftforyoube/funding/dto/FundingCreateRequestDto.java:37 | digits beyond the `int` range are rejected |
| Fundings.PrintedAmountConverts | src/main/java/com/giftforyoube/funding/dto/FundingCreateRequestDto.java:37 | any printed `int` converts back to itself |
| Fundings.PrintedOverflowRejected | src/main/java/com/giftforyoube/funding/dto/FundingCreateRequestDto.java:37 | any printed number above the largest `int` is rejected |
| Fundings.GroupedExample | src/main/java/com/giftforyoube/funding/dto/FundingCreateRequestDto.java:37 | "10,000" converts to 10000 |
| Fundings.DoubledCommaExample | src/main/java/com/giftforyoube/funding/dto/FundingCreateRequestDto.java:37 | "1,,0" converts to 10: comma placement is not checked |
| FundingServices.ActiveIdsOf | src/main/java/com/giftforyoube/funding/service/FundingService.java:83 | `findByUserIdAndStatus(id, ACTIVE)`: the ids of the user's ACTIVE fundings |
| FundingServices.HasActiveFunding | src/main/java/com/giftforyoube/funding/service/FundingService.java:58-59 | the `anyMatch` guard: the user owns at least one ACTIVE funding |
| FundingServices.ActiveIdsAtMostOne | src/main/java/com/giftforyoube/funding/service/FundingService.java:81-89 | under the invariant a user has at most one ACTIVE funding |
| FundingServices.AddPreservesAtMostOneActive | src/main/java/com/giftforyoube/funding/service/FundingService.java:56-69 | saving a funding for a user without an ACTIVE one keeps the invariant |
| FundingServices.InitialStatus | src/main/java/com/giftforyoube/funding/service/FundingService.java:66 | a new funding is FINISHED exactly when its end date is strictly before today |
| FundingServices.EndingTodayStartsActive | src/main/java/com/giftforyoube/funding/service/FundingService.java:66 | an end date equal to today gives ACTIVE |
| FundingServices.Finish | src/main/java/com/giftforyoube/funding/service/FundingService.java:121 | finishing sets that status to FINISHED and changes nothing else |
| FundingServices.FinishIdempotent | src/main/java/com/giftforyoube/funding/service/FundingService.java:112-123 | finishing twice equals finishing once |
| FundingServices.FinishPreservesAtMostOneActive | src/main/java/com/giftforyoube/funding/service/FundingService.java:112-123 | finishing keeps the one-ACTIVE-per-user invariant |
| FundingServices.RemovePreservesAtMostOneActive | src/main/java/com/giftforyoube/funding/service/FundingService.java:147 | deleting keeps the invariant |
| FundingServices.SortDirection | src/main/java/com/giftforyoube/funding/service/FundingService.java:93 | ascending exactly when `sortOrder` equals "asc" ignoring case |
| FundingServices.SortDirectionAsc | src/main/java/com/giftforyoube/funding/service/FundingService.java:93 | explicitly, the three-letter strings a/A, s/S/ſ, c/C; every other string gives descending |
| FundingServices.WithStatus | src/main/java/com/giftforyoube/funding/service/FundingService.java:94 | the query rows are exactly the fundings with the given status, unchanged |
| FundingServices.ListingsPartition | src/main/java/com/giftforyoube/funding/service/FundingService.java:91-103 | the ACTIVE and FINISHED listings are disjoint and together cover the table |
| FundingServices.SmallestId | src/main/java/com/giftforyoube/funding/service/FundingService.java:152 | `findFirstByOrderByIdAsc` picks the smallest id |
| FundingServices.FundingService.SaveToDatabase | src/main/java/com/giftforyoube/funding/service/FundingService.java:52-72 | checks in order: unknown user (UsernameNotFound), an existing ACTIVE funding (IllegalState, nothing saved), preview IOException, NumberFormatException; otherwise the converted funding, owned by the user, with the derived status and the fixed preview link `https://www.giftipie.me/` as its `itemLink`, is saved under a fresh id; the invariant is preserved |
| FundingServices.FundingService.FindFunding | src/main/java/com/giftforyoube/funding/service/FundingService.java:74-79 | returns the funding, or NullPointerException for a missing id |
| FundingServices.FundingService.GetMyFundingInfo | src/main/java/com/giftforyoube/funding/service/FundingService.java:81-89 | the empty DTO when the user has no ACTIVE funding; that funding, as a response for its id, when there is exactly one; IncorrectResultSize exactly when there are several, which the invariant rules out |
| FundingServices.FundingService.GetActiveFundings | src/main/java/com/giftforyoube/funding/service/FundingService.java:91-96 | only and all ACTIVE fundings; ascending iff `sortOrder` equals "asc" ignoring case |
| FundingServices.FundingService.GetFinishedFundings | src/main/java/com/giftforyoube/funding/service/FundingService.java:98-103 | only and all FINISHED fundings, with the same direction rule |
| FundingServices.FundingService.FinishFunding | src/main/java/com/giftforyoube/funding/service/FundingService.java:112-123 | FUNDING_NOT_FOUND or UNAUTHORIZED_FINISHED_FUNDING with the table unchanged; otherwise that funding becomes FINISHED |
| FundingServices.FundingService.UpdateFunding | src/main/java/com/giftforyoube/funding/service/FundingService.java:125-136 | FUNDING_NOT_FOUND or UNAUTHORIZED_UPDATE_FUNDING; otherwise the funding is returned |
| FundingServices.FundingService.DeleteFunding | src/main/java/com/giftforyoube/funding/service/FundingService.java:138-148 | FUNDING_NOT_FOUND or UNAUTHORIZED_DELETE_FUNDING with the table unchanged; otherwise exactly that funding is removed |
| FundingServices.FundingService.GetFundingSummary | src/main/java/com/giftforyoube/funding/service/FundingService.java:150-158 | the summary row with the smallest id, or all zeros when there is none |
| Scheduling.DetailUrl | src/main/java/com/giftforyoube/scheduler/Scheduler.java:45 | `https://giftipie.me/fundingdetail/` followed by the funding id in decimal |
| Scheduling.Expired | src/main/java/com/giftforyoube/scheduler/Scheduler.java:34 | a funding is due when it is ACTIVE and its end date is on or before today |
| Scheduling.ExpiredIds | src/main/java/com/giftforyoube/scheduler/Scheduler.java:34 | `findByEndDateLessThanEqualAndStatus(today, ACTIVE)`: the ids of the due fundings |
| Scheduling.Owner | src/main/java/com/giftforyoube/scheduler/Scheduler.java:41 | the funding's owner, looked up among the known users |
| Scheduling.Notice | src/main/java/com/giftforyoube/scheduler/Scheduler.java:44-47 | the `send` arguments: the owner, FUNDING_TIME_OUT, the fixed content and the detail url |
| Scheduling.DetailUrlInjective | src/main/java/com/giftforyoube/scheduler/Scheduler.java:45 | different fundings have different detail urls |
| Scheduling.FinishAll | src/main/java/com/giftforyoube/scheduler/Scheduler.java:35-37 | the given fundings become FINISHED, the rest are unchanged |
| Scheduling.Sweep | src/main/java/com/giftforyoube/scheduler/Scheduler.java:32-37 | an ACTIVE funding with `endDate <= today` becomes FINISHED; every other funding, and every other field, is unchanged |
| Scheduling.SweepLeavesNothingExpired | src/main/java/com/giftforyoube/scheduler/Scheduler.java:34-37 | after the sweep the same day's query finds nothing |
| Scheduling.SweepIdempotent | src/main/java/com/giftforyoube/scheduler/Scheduler.java:34-49 | a second sweep on the same day changes nothing |
| Scheduling.SecondSweepSendsNothing | src/main/java/com/giftforyoube/scheduler/Scheduler.java:34-49 | a second sweep on the same day visits, and so sends, nothing |
| Scheduling.SweepPreservesAtMostOneActive | src/main/java/com/giftforyoube/scheduler/Scheduler.java:34-37 | the sweep keeps the one-ACTIVE-per-user invariant |
| Scheduling.SweepKeepsOwners | src/main/java/com/giftforyoube/scheduler/Scheduler.java:36-37 | the sweep keeps every funding's owner, the same user as before, and every owner stays a known user |
| Scheduling.TimeoutNotices | src/main/java/com/giftforyoube/scheduler/Scheduler.java:40-48 | every notice is FUNDING_TIME_OUT with the fixed content, goes to an owner who agreed, and is the notice of a visited funding |
| Scheduling.NoticeSentWhenAgreed | src/main/java/com/giftforyoube/scheduler/Scheduler.java:40-48 | a visited funding whose owner agreed gets its notice |
| Scheduling.NoticeSentIff | src/main/java/com/giftforyoube/scheduler/Scheduler.java:40-48 | a visited funding gets a notice with its url exactly when its owner agreed to e-mail |
| Scheduling.NoticesDistinct | src/main/java/com/giftforyoube/scheduler/Scheduler.java:35-48 | visiting each funding once, no two notices share a url: at most one per funding |
| Scheduling.Scheduler.Expire | src/main/java/com/giftforyoube/scheduler/Scheduler.java:36-48 | one funding becomes FINISHED and its notice is handed over iff its owner agreed |
| Scheduling.Scheduler.ExpireAll | src/main/java/com/giftforyoube/scheduler/Scheduler.java:35-50 | each fetched funding is visited exactly once; the table becomes the finished table; the notices follow visiting order |
| Scheduling.Scheduler.AutoFinishFundings | src/main/java/com/giftforyoube/scheduler/Scheduler.java:28-52 | the table becomes `Sweep` of the old one; exactly the expired fundings are visited, once each; their notices are handed over; `clearFundingCaches()` is counted once, after the loop (the `@CacheEvict` eviction on return is not counted); the invariant holds |

## Left out

- HTTP controllers, authentication checks and response wrapping are not modelled. What remains of them is the Last-Event-ID header's default of "" (NotificationController.java line 43), which `HasLostData` reads as "no replay".
- SSE transport is not modelled: the `X-Accel-Buffering` header and the bytes written by `emitter.send`. A push is an oracle outcome recorded in `pushes`; the emitter timeout is a constant.
- `@Async` is not modelled. `Send` runs to completion when called. The scheduler's `send` calls are recorded in `dispatched` and not executed, so their outcomes cannot reach the sweep. No two operations interleave: there is no concurrency, and no thread safety of the shared maps.
- `@Transactional` is not modelled: a failed operation keeps the changes made before the failure, as the code without rollback would. No modelled failure happens after a write except in `Send`.
- Spring Data and JPA are not modelled. Repositories are maps, and a generated id is the next value of a counter. Spring-managed entities are values here, so aliasing between a cached entity and a stored one is not modelled.
- `PageRequest.of` paging and its argument checks are not modelled, nor sorting by the `sortBy` property.
- `@CacheEvict` and `CacheService` are not modelled. `cacheClears` counts only the explicit `clearFundingCaches()` call (Scheduler.java line 51), not the eviction `@CacheEvict(allEntries = true)` performs when the method returns (line 29).
- The mail transport (`MailingService`) is not modelled; a mail call is recorded in `mailCalls`, and its outcome is an oracle.
- Cron scheduling is not modelled.
- `previewItem` and `getMetaTagContent` (Jsoup fetch and HTML parsing) are foreign calls. The model keeps what `previewItem` does with their result (FundingService.java lines 164-171): it pairs the given link with the `og:image` content, the parameter `ogImage`, and throws IOException when that is missing.
- The emitter repository is not part of this model. Its `save` and `saveEventCache` are assumed to overwrite: a later write under a key replaces the earlier value. Because `send` caches under the emitter id (NotificationService.java line 82), the event cache then holds only the latest notification per emitter, and a replay resends at most one notification per earlier connection. No iteration order is assumed.
- `addLinkAndSaveToCache` and `getAllFundings` are outside the modelled core.
- Null arguments and the NullPointerExceptions they would cause are not modelled. Examples are a null `endDate`, a null `targetAmount`, or a funding without an owner; the last is ruled out by the repository invariant.
- Notifications.NotificationService.Send: one clock reading `now` is used both for the event id and for `createdAt`; the real `createdAt` is assigned by JPA auditing.
- FundingServices.FundingService.UpdateFunding: it models only the two guards. `Funding.update` is not part of this model, so the contract promises the table unchanged rather than updated.
- FundingServices.FundingService.GetActiveFundings: it returns all selected rows with the requested page and sort, not one page sorted by `sortBy`.
- FundingServices.FundingService.GetFinishedFundings: as for `GetActiveFundings`, paging and sorting are not applied.
- FundingServices.FundingService.GetFundingSummary: `FundingSummary` is not part of this model; its no-argument constructor is taken to set every total to zero.
- JavaLang.ParseInt: only ASCII digits are accepted, whereas `Character.digit` also accepts other Unicode decimal digits.
- FundingServices.SortDirectionAsc: case mapping is modelled for ASCII letters, U+017F and U+212A only. The lemma holds for that mapping; Java's full Unicode tables are not modelled.
