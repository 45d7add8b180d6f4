# Verified models of the blog, chat and portfolio backend

A Dafny model of the parts of the backend that hold real protocols, state
machines or string algorithms, with proofs of what they promise. Code that
changes state step by step is modelled by classes and loops proved against
specification functions; protocols whose requests interleave are step systems
whose in-flight requests are part of the state, with inductive invariants and
theorems about every run.

Check everything with `dafny verify dfyconfig.toml` (Dafny 4.11).

## What is modelled

| Files | Subject |
|---|---|
| `SessionStore`, `RefreshProtocol`, `RefreshTheorems`, `RefreshReplay`, `AuthService` | refresh-token rotation with replay detection (section 4.14.2 of RFC 9700) under arbitrary interleaving of requests |
| `ModerationStore`, `Moderation`, `ModerationLog` | post reports, moderation decisions, the hidden flag and the audit log |
| `ChatStream` | the AI chat stream: upstream reader, relay and SSE writer joined by channels |
| `Hub` | the realtime hub with bounded subscriber queues |
| `TextFold`, `LookAlikes`, `StringSearch`, `Normalize`, `WordPlaces`, `BannedKeywords`, `DisguisedWords`, `DisguisedPhrases`, `Links`, `BlockedLinks`, `LinkCount`, `AntiSpam` | the anti-spam text pipeline |
| `RateLimit` | the in-memory fixed-window limiter |
| `GuildMessages` | cursor pages over channel messages that change meanwhile |
| `PasswordHash`, `PasswordText`, `PasswordRefusal`, `Base64Text` | printer and parser of password hashes, with unpadded base64 (sections 3.2 and 4 of RFC 4648) |
| `Quotes` | symbol normalisation, batched price fetching and the price cache |
| `CorporateActions`, `Monthly` | merging calendar rows; the month range of the holdings chart |
| `Wrappers` | option and result types |

## Where the code departs from its stated intent

The models follow the code. Each departure is stated as a theorem with its exact
condition:

- A revoked session family can come back. `RotateSession` answers "already
  rotated" for a row that was deleted, so with a grace period a request that read
  its row before the revocation inserts a sibling into the emptied family
  (`RefreshTheorems.RevivalIffInFlight`, `LogoutCanBeUndone`). Without a grace
  period this cannot happen (`NoGraceNoRevival`).
- Rotated rows are kept so that a replay stays recognisable
  (internal/model/session.go:11-15). After such a revival it does not: the row of the
  exchanged token is gone, its family lives on, and a replay revokes nothing
  (`RefreshReplay.ReplayCaughtIff`, `CatchesReplaysIff`, `RetainsIffNoGrace`; runs in
  `ReplayMissed` and `TokenForgotten`).
- The comment on pruning (internal/repository/session_repository.go:100-102) says a
  row past `expires_at` could no longer have been redeemed. A row rotated shortly
  before that deadline still can be, inside its grace period; pruning deletes it, and
  so does a refresh that read it before the exchange
  (`RefreshReplay.DropsRedeemableIff`, `HousekeepingIsHarmlessIff`; runs in
  `LoginPrunesTooMuch` and `RefreshDropsTooMuch`).
- A report inserted after its checks while the post is being hidden stays pending
  on a hidden post (`Moderation.PendingWhileHiddenIff`, `HideUnderReportIff`; run in
  `HideBetweenCheckAndInsert`).
- When the reply is stored but updating its conversation fails, the client is told
  that saving failed (`ChatStream.ErrorWithStoredReplyIff`; run in `StoredYetFailed`).
- The Retry-After header rounds down: a client that waits exactly that long is
  refused again unless the wait was at most a second or a whole number of seconds
  (`RateLimit.HeaderIsEnoughIff`; run in `HeaderFallsShort`).
- Stored hashes are read more loosely than they are printed: text before the first
  dollar sign, blanks, a sign, leading zeros or trailing text in the version, order
  and leading zeros of the costs, line ends and leftover bits of the base64
  (`PasswordText.PrintUndoesParseIff`; one text for each in `JunkIsCurrent`,
  `LooseVersionHash`, `LooseCostsHash`, `LineEndHash`, `LeftoverBitsHash`). A hash with
  text before the first dollar sign can need no rehash and yet be refused by
  `Compare` for every password (`PasswordText.CurrentComparesIff`).

## Parameters and hypotheses

- A session's id and the hash of its token are minted together and identify the
  same row, so the model uses one number for both. Fresh ids, fresh tokens and an
  injective token hash are assumed.
- Each repository call is one atomic step. The clock moves only forwards. How long
  a refresh may take between deciding and minting is the parameter `latency`; 0
  means that a refresh happens at one instant.
- `strings.ToLower` is a function on runes of which only `TextFold.LowerFacts` is
  used: plain lowering on ASCII, white space untouched. Trimming and upper-casing a
  symbol is a function assumed idempotent.
- The limiter's theorems about runs assume that requests reach the table in clock
  order. The code reads the clock before taking the lock, so two requests that race
  may arrive slightly out of order.
- Message ids are numbers in their sort order. Only `ArrivalsDoNotShiftPages` and
  `WalkIsBounded` assume that new messages get newer ids; that a message present
  throughout is returned exactly once does not depend on it.
- Argon2id, bcrypt and the price provider are function parameters. Prices and
  holdings are reals.
- The grouped SQL of the monthly query is the hypothesis `Monthly.IsGrouped` on the
  rows.

## Model

| member | source | states |
|---|---|---|
| `SessionStore.BuildSession` | internal/service/auth_service.go:795-839 | a new row is the given family, user and absolute deadline, created now and unrotated, and expires at the sliding deadline or at the absolute one, whichever comes first |
| `SessionStore.SessionRepository.CreateSession` | internal/repository/session_repository.go:44-46 | inserts a row under a fresh key and leaves the table alone on a duplicate |
| `SessionStore.SessionRepository.GetSessionByRefreshToken` | internal/repository/session_repository.go:48-54 | finds the row of a token iff there is one |
| `SessionStore.SessionRepository.RotateSession` | internal/repository/session_repository.go:56-76 | stamps an unrotated row and inserts its successor in one transaction; "already rotated" also when the row is gone; a failed insert rolls the stamp back |
| `SessionStore.SessionRepository.DeleteByUserID` | internal/repository/session_repository.go:82-85 | afterwards an id is in the table iff it was there with another user; every row left is as it was; reports how many went |
| `SessionStore.SessionRepository.DeleteByFamilyID` | internal/repository/session_repository.go:87-89 | afterwards an id is in the table iff it was there with another family, and every row left is as it was |
| `SessionStore.SessionRepository.DeleteExpired` | internal/repository/session_repository.go:98-107 | afterwards a row is gone iff it was one of the user past its sliding or absolute deadline; every row left is as it was; reports how many went |
| `AuthService.RefreshOutcome` | internal/service/auth_service.go:309-360 | an undisturbed refresh, by what was presented: granted iff the token is stored, not past a deadline or inside grace, and the account exists; else which error, and exactly the rows of its family or its own row gone with all others as they were; on success the stamped row, the new row and what pruning took |
| `AuthService.IssueOutcome` | internal/service/auth_service.go:369-416 | on a table changed by others: fails, changing nothing, iff the account is gone or the race is lost without grace; else the successor is stored and the row is stamped iff it was still unrotated |
| `AuthService.Service.RefreshToken` | internal/service/auth_service.go:309-360 | table and answer of every branch of a refresh: absolute expiry, grace, replay, sliding expiry, rotation |
| `AuthService.Service.IssueRotatedToken` | internal/service/auth_service.go:369-416 | rotation, the fallback to a sibling after a lost race, and pruning |
| `AuthService.Service.Logout` | internal/service/auth_service.go:471-477 | exactly the rows of the family of the caller's own token go and all others stay as they were; a foreign or unknown token is a no-op |
| `AuthService.RefreshCallIsARun` | internal/service/auth_service.go:309-425 | a refresh that nothing interleaves with is one run of the step system, with the same final table |
| `AuthService.LogoutIsARun` | internal/service/auth_service.go:471-477 | so is a logout, and it takes exactly the family of the caller's own token |
| `RefreshProtocol.StepKeepsInv` | internal/service/auth_service.go:309-416 | every step of every request keeps the invariant that ties rows, in-flight requests and logins together |
| `RefreshTheorems.FamilyShares` | internal/service/auth_service.go:316-325 | in every reachable state rows of one family share user and absolute deadline, namely the user of its login and the time of that login plus the cap, and never outlive it |
| `RefreshTheorems.SingleLeafIffNoGrace` | internal/service/auth_service.go:329-360 | each family has at most one unexchanged token in every reachable state iff no grace period is configured |
| `RefreshTheorems.RaceMakesSibling` | internal/service/auth_service.go:396-405 | for every positive grace period, a run in which two concurrent refreshes leave two usable tokens in one family |
| `RefreshTheorems.RunSettles` | internal/repository/session_repository.go:56-76 | over every run rotation stamps are write-once, all other columns never change and a removed row never returns |
| `RefreshTheorems.GoneIffTaken` | internal/repository/session_repository.go:78-107 | over every run a row goes iff some step takes it: its family is revoked, its user or everything is deleted, its own token is dropped, or it is an expired row of the user being pruned |
| `RefreshTheorems.RevivalIffInFlight` | internal/repository/session_repository.go:62-73 | a family that was emptied by logout, replay, expiry or revocation can regain a row iff grace is positive and a request on it that may still insert is in flight at that moment |
| `RefreshTheorems.NoGraceNoRevival` | internal/service/auth_service.go:348-353 | without a grace period a revoked family never regains a row |
| `RefreshTheorems.LogoutCanBeUndone` | internal/service/auth_service.go:396-405 | for every positive grace period, a run in which a family comes back after its owner logged out |
| `RefreshTheorems.HonouredInTime` | internal/service/auth_service.go:316-360 | no token is honoured after login plus the absolute cap, nor after row creation plus window, grace and request latency |
| `RefreshTheorems.IdleFamilyIsDead` | internal/service/auth_service.go:329-358 | once all rows ever issued in a family are older than that, nothing in the family is honoured at any later moment of any run |
| `RefreshReplay.GoneIffEmptied` | internal/model/session.go:11-15 | over every run a row is gone before its deadline iff its whole family was gone at some moment |
| `RefreshReplay.ReplayCaughtIff` | internal/service/auth_service.go:329-353 | a token presented past its grace period and before its deadline ends with its family gone iff the family was not revived since the exchange; a revival goes unnoticed and needs an inserting request in flight when the family was emptied |
| `RefreshReplay.CatchesReplaysIff` | internal/service/auth_service.go:329-353 | a deployment catches every such replay in every run iff it has no grace period or one not below its sliding window or its cap |
| `RefreshReplay.ReplayMissed` | internal/service/auth_service.go:396-405 | for every grace period below window and cap, a run in which a replay finds nothing while its family lives on |
| `RefreshReplay.RetainsIffNoGrace` | internal/model/session.go:11-15 | in every reachable state every token ever stored is there until its deadline or its family is gone, iff there is no grace period |
| `RefreshReplay.TokenForgotten` | internal/service/auth_service.go:396-405 | for every positive grace period, a run after which a token before its deadline is unknown, its family has a row, and presenting it revokes nothing |
| `RefreshReplay.ReplayKillsFamily` | internal/service/auth_service.go:345-353 | without grace, presenting any token ever stored, exchanged and before its deadline, leaves its family gone for good, whether or not its row is still there |
| `RefreshReplay.DropsRedeemableIff` | internal/repository/session_repository.go:98-107 | pruning, or dropping a row read before it was exchanged, deletes a token that would still be honoured iff the row was rotated so late that its grace period outlasts its sliding deadline |
| `RefreshReplay.HousekeepingIsHarmlessIff` | internal/repository/session_repository.go:98-107 | a deployment never deletes such a token, in any run, iff it has no grace period or an absolute cap no longer than the sliding window |
| `RefreshReplay.LoginPrunesTooMuch` | internal/repository/session_repository.go:98-107 | otherwise a run in which a second login prunes one |
| `RefreshReplay.RefreshDropsTooMuch` | internal/service/auth_service.go:355-362 | and a run in which a refresh that looked it up earlier drops one |
| `ModerationStore.PostReportRepository.Create` | internal/repository/post_report_repository.go:38-48 | inserts a pending report unless the reporter already has one on the post; refuses a deleted post |
| `ModerationStore.PostReportRepository.Decide` | internal/repository/post_report_repository.go:112-185 | one transaction: state check, audit row, flag and reports; an error changes nothing |
| `ModerationStore.PostReportRepository.Close` | internal/repository/post_report_repository.go:187-195 | keeps every report; the pending ones of the post get the status and the decision, none of the post stays pending, all others are unchanged |
| `Moderation.StepKeepsInv` | internal/repository/post_report_repository.go:112-195 | every step keeps log, flags, reports and dismissals consistent |
| `Moderation.HiddenIffLastFlagHides` | internal/repository/post_report_repository.go:132-180 | in every run the hide and unhide rows of a post alternate, starting with hide, and it is hidden iff their number is odd |
| `Moderation.ReportsAreConsistent` | internal/repository/post_report_repository.go:38-48 | in every run there is at most one pending report per post and reporter, each closed report names the hide or dismiss row of its own post, and each dismissal closed a report |
| `Moderation.RunSettles` | internal/repository/post_report_repository.go:187-195 | over every run a closed report never changes and the audit log only grows |
| `ModerationLog.LogIsTheDecisions` | internal/repository/post_report_repository.go:155-164 | over every run the log grows by exactly the decisions the state of the post allowed, in order, each with post, author at that time, administrator and verb; a row loses its link iff the post is deleted |
| `ModerationLog.NobodyReportsThemselves` | internal/service/post_report_service.go:54-56 | in every run no report is by the author of its post |
| `ModerationLog.ReportGoneIffPostDeleted` | migrations/20260930100000_add_post_reports.sql:76-78 | over every run a report goes iff its post is deleted, and never changes its post or reporter |
| `ModerationLog.PostGoneIffDeleted` | internal/repository/post_report_repository.go:112-185 | over every run a post goes iff it is deleted, never comes back and keeps its author, whatever is decided about it |
| `Moderation.PendingWhileHiddenIff` | internal/service/post_report_service.go:39-71 | while a post stays hidden, some run gives it a pending report iff it has one already or a report on it is between its check and its insert |
| `Moderation.InFlightLands` | internal/service/post_report_service.go:64-70 | a report in flight on a hidden post can be inserted at once and is then pending there |
| `Moderation.HideUnderReportIff` | internal/repository/post_report_repository.go:132-136 | from a clean state exactly the hides of a post with a report in flight lead to a state in which a hidden post can come to have a pending report |
| `Moderation.StepKeepsCleanIff` | internal/service/post_report_service.go:39-71 | a step keeps "no hidden post has a report pending or in flight" iff it does not hide a post with a report in flight |
| `Moderation.UndisturbedIsClean` | internal/service/post_report_service.go:47-70 | with check and insert as one step a hidden post never has a pending report |
| `Moderation.HideBetweenCheckAndInsert` | internal/service/post_report_service.go:47-70 | a run that leaves a pending report on a hidden post |
| `ChatStream.StepKeepsInv` | internal/service/chat_conversation_service.go:287-335 | every step of producer, relay and writer keeps the invariant over their channels, the text gathered and the frames written |
| `ChatStream.CompleteMatchesChunks` | internal/handler/chat_conversation_handler.go:329-355 | if ai_complete is on the wire, exactly one reply was stored, it is its content and the concatenation of the ai_chunk payloads before it, and only [DONE] follows; what that text is says `ReplyIsBodyText` |
| `ChatStream.ReplyIsBodyText` | internal/platform/openrouter/client.go:101-144 | in every run the text gathered is a prefix of the text of the upstream body up to its end marker; a reply that is stored, or shown by ai_complete, is the whole of it |
| `ChatStream.SmoothRunDelivers` | internal/service/chat_conversation_service.go:287-335 | when nothing fails and the writer has returned, the whole upstream text was stored and sent as ai_complete; if it was empty, nothing was stored and the client was told so |
| `ChatStream.ReturnedTranscript` | internal/handler/chat_conversation_handler.go:296-357 | a stream whose writes succeeded is the user message, chunks, exactly one of ai_complete and error, and [DONE] |
| `ChatStream.RelayReportsOnce` | internal/service/chat_conversation_service.go:292-335 | the relay puts at most one value on its two result channels, and exactly one by the time it ends |
| `ChatStream.NothingBlocks` | internal/service/chat_conversation_service.go:288-335 | in every reachable state the relay can report, close or receive at once whenever that is next, and so can the producer report and close and the writer receive its result |
| `ChatStream.ErrorWithStoredReplyIff` | internal/service/chat_conversation_service.go:321-333 | when the client is told of an error, a reply is stored all the same iff updating the conversation failed after storing it |
| `ChatStream.StoredYetFailed` | internal/service/chat_conversation_service.go:321-332 | for every one-chunk reply, a run that stores it and tells the client that saving failed |
| `ChatStream.Progress` | internal/service/chat_conversation_service.go:287-335 | while the client reads, or once the context has ended, some process can move until all three are done |
| `ChatStream.StepGetsCloser` | internal/platform/openrouter/client.go:86-145 | every step of every process lowers one measure fixed by the upstream body |
| `ChatStream.EndedRunsFinish` | internal/handler/chat_conversation_handler.go:296-300 | after the context ends every run is finite by a known bound and can only stop with all three processes finished |
| `Realtime.Subscription.Send` | internal/platform/realtime/hub.go:165-166 | a send never meets a closed or full channel and appends one payload |
| `Realtime.Subscription.CloseChannel` | internal/platform/realtime/hub.go:182-193 | a channel is closed at most once |
| `Realtime.Hub.Subscribe` | internal/platform/realtime/hub.go:101-118 | a new subscription starts at the current end of its topic; after Close it is born closed |
| `Realtime.Hub.RemoveLocked` | internal/platform/realtime/hub.go:184-197 | closes the channel iff the subscription is still registered |
| `Realtime.Hub.Remove` | internal/platform/realtime/hub.go:176-180 | ends one subscription, however often it is called |
| `Realtime.Hub.Offer` | internal/platform/realtime/hub.go:164-173 | sends if there is room, else drops the subscriber |
| `Realtime.Hub.Deliver` | internal/platform/realtime/hub.go:161-174 | a subscriber is dropped iff exactly 64 payloads are unread; every other subscription is untouched; every subscription has seen a gap-free run of its topic from its start, complete while registered |
| `Realtime.Hub.Close` | internal/platform/realtime/hub.go:139-152 | ends every subscription once, losing nothing already sent; a second call does nothing |
| `Realtime.Hub.Receive` | internal/platform/realtime/hub.go:29-34 | what a subscriber consumes is a prefix of the deliveries since it subscribed |
| `Normalize.NormalizeText` | pkg/antispam/normalize.go:56-83 | the loop over runes computes the specified normal text |
| `Normalize.MergeSingleCharRuns` | pkg/antispam/normalize.go:138-158 | consecutive one-character tokens are joined, others kept |
| `Normalize.UndoLeet` | pkg/antispam/normalize.go:160-171 | digits stand for letters only in tokens that hold a letter |
| `Normalize.NormalizedIsNormal` | pkg/antispam/normalize.go:48-55 | the result is lowercase alphanumeric words joined by single spaces, no two adjacent of one character, none mixing letters and leet digits |
| `Normalize.FixedPointIffNormal` | pkg/antispam/normalize.go:56-83 | a text is left alone by normalising iff it is such a normal form |
| `Normalize.NormalizeIdempotent` | pkg/antispam/normalize.go:56-83 | normalising twice is normalising once |
| `WordPlaces.NormalizedByPlace` | pkg/antispam/normalize.go:78-82 | apart from the spaces, each place of the normal text depends only on its own letter-bearing word |
| `LookAlikes.ReadAsItLooks` | pkg/antispam/normalize.go:67-75 | every rune, once lowered, is read as letter or digit c iff it looks like c, dropped iff it renders as nothing, and splits otherwise |
| `LookAlikes.FoldsToWhatItLooksLike` | pkg/antispam/normalize.go:87-107 | the fold gives c iff the rune is c, is listed for it, is the sign for it, or has its place in a full-width, mathematical or circled alphabet |
| `LookAlikes.ListedOnce` | pkg/antispam/normalize.go:8-29 | no rune is listed for two letters |
| `DisguisedWords.SpellsIfDisguises` | pkg/antispam/normalize.go:67-82 | a text spells a word, rune by rune, iff what the tokenizer emits for it is the word with leet digits in places |
| `BannedKeywords.FindBannedKeyword` | pkg/antispam/antispam.go:62-71 | the loop returns the first phrase of the list that matches the joined texts, as it is or without its spaces, and "" iff none does |
| `BannedKeywords.JoiningNeverHides` | pkg/antispam/antispam.go:62-71 | if one text is flagged alone, every argument list containing it is flagged |
| `DisguisedWords.DisguisedWordIsCaught` | pkg/antispam/antispam.go:58-71 | wherever runes that look like letters or leet digits, mixed with runes that render as nothing, spell a banned phrase without its spaces, inside any word of any text, the text is flagged |
| `DisguisedPhrases.DisguisedPhraseIsCaught` | pkg/antispam/antispam.go:58-71 | so is a phrase of several words, each spelled so on its own inside any text, whatever separates the words |
| `DisguisedPhrases.PhrasesAreBanned` | pkg/antispam/antispam.go:28-44 | the words of the phrases, joined by single spaces, are the banned keywords |
| `DisguisedPhrases.StrippedIsOneWord` | pkg/antispam/antispam.go:64-67 | without its spaces a banned phrase is its words in a row |
| `DisguisedWords.SpacedWordIsCaught` | pkg/antispam/antispam.go:58-71 | so is such a spelling with separators around it and between all its letters |
| `StringSearch.NoOverlap` | pkg/antispam/links.go:214-227 | occurrences of a border-free needle never overlap, so a search may jump past a whole match |
| `Links.NeedlesAreBorderFree` | pkg/antispam/links.go:82-94 | the fixed needles the scanners jump over are border-free |
| `Links.ScanWWWHost` | pkg/antispam/links.go:82-94 | true iff "www." stands at the start of a word at any index |
| `Links.HostsAreListed` | pkg/antispam/links.go:150-173 | a host is in the list iff some URL of the text has it |
| `Links.ScanBareDomain` | pkg/antispam/links.go:98-122 | true iff label, dot and a listed top-level domain stand somewhere |
| `Links.WrittenDomain` | pkg/antispam/links.go:98-122 | in any text a dot with letters after it is such a link iff a label precedes it, the letters are a listed top-level domain and no digit follows |
| `Links.ContainsBareLink` | pkg/antispam/links.go:214-227 | true iff the domain and a slash stand at the start of a word at any index |
| `Links.ScanSlotNumber` | pkg/antispam/links.go:199-210 | true iff "slot" is followed by a digit at any index |
| `Links.LinkHosts` | pkg/antispam/links.go:152-173 | lists in order exactly the non-empty hosts after every scheme separator whose full preceding text ends in http or https |
| `Links.WrittenUrl` | pkg/antispam/links.go:160-171 | for any text before, host and rest: the host found is the one written, less a leading www., and it is listed iff that is not empty and the text before ends in http or https |
| `Links.PieceDecides` | pkg/antispam/links.go:160-164 | looking only at the piece since the last separator decides the scheme as the full text would |
| `BlockedLinks.BlockedLink` | pkg/antispam/links.go:126-143 | gives a reason iff some host anywhere is a shortener or gambling host, or a shortener is pasted without a scheme; it names the first blocked host, as a shortener if it is one, else the first pasted shortener |
| `BlockedLinks.MatchShortener` | pkg/antispam/links.go:179-186 | the first shortener of the list that the host equals or ends in |
| `LinkCount.CheckLink` | pkg/antispam/links.go:46-60 | true iff one of the five detectors fires anywhere |
| `LinkCount.LinkSplit` | pkg/antispam/links.go:65-79 | cutting at a separator neither creates nor loses a link, for every detector |
| `LinkCount.WordsKeepLinks` | pkg/antispam/links.go:65-79 | the words of a text hold a link iff the text does |
| `LinkCount.CountLinks` | pkg/antispam/links.go:65-79 | the two loops compute the sum over texts and words, which is the number of indices at which "://" stands plus the number of link words without it |
| `LinkCount.LinksAreSchemesAndBareWords` | pkg/antispam/links.go:65-79 | for every text the words count together as many links as "://" occurs in the text, each occurrence being inside one word, plus one for each word that holds a link without it |
| `LinkCount.CountIsSchemesAndBareWords` | pkg/antispam/links.go:65-79 | so it is for every list of texts |
| `LinkCount.WordsAreCut` | pkg/antispam/links.go:68-70 | the words and the separators between them make up the text: words are not empty and hold no separator, and only separators lie between |
| `StringSearch.OccurrencesIsCardinality` | pkg/antispam/links.go:73 | the number of occurrences is the size of the set of indices at which the needle stands |
| `LinkCount.NoLinksCountedIffNone` | pkg/antispam/links.go:46-79 | CountLinks is zero iff ContainsLink is false, for every text |
| `LinkCount.CountIsAdditive` | pkg/antispam/links.go:65-79 | the count of several texts is the sum of their counts |
| `AntiSpam.TextRejectReason` | pkg/antispam/antispam.go:75-85 | gives a reason iff a banned phrase is found or one of the texts has a blocked link: the phrase first, else the reason of the first such text |
| `AntiSpam.PostRejectReason` | pkg/antispam/antispam.go:98-114 | gives a reason iff the texts are refused or hold more than two links: the phrase first, else the reason of the first text with a blocked link, else the number of links |
| `AntiSpam.NoFieldHidesSpam` | pkg/antispam/antispam.go:98-114 | what is refused in one field alone is refused in every post carrying it |
| `RateLimit.FixedWindowStore.Cleanup` | internal/middleware/rate_limit.go:142-148 | removes exactly the expired entries |
| `RateLimit.FixedWindowStore.AdmitLocked` | internal/middleware/rate_limit.go:126-140 | sweeps a full table, then tracks the newcomer unless it is still full |
| `RateLimit.FixedWindowStore.Allow` | internal/middleware/rate_limit.go:98-122 | the answer and the new table of one request: in a live window it counts one more below the limit or is refused with the time left, the end of the window staying; otherwise it is let in and, if tracked, starts a window of its own |
| `RateLimit.FixedWindowStore.Handle` | internal/middleware/rate_limit.go:44-65 | passes or refuses a request, with the Retry-After value; switched off by a non-positive limit or window |
| `RateLimit.TableIsBounded` | internal/middleware/rate_limit.go:24-31 | in every run the table holds at most 10,000 entries |
| `RateLimit.CappedAnswersLikeUnbounded` | internal/middleware/rate_limit.go:98-148 | with a monotone clock a visitor who was always tracked gets the answers of a reference that sees only its own requests and never forgets; what these are says `GrantedIffRoomInWindow` |
| `RateLimit.GrantedIffRoomInWindow` | internal/middleware/rate_limit.go:98-122 | such a visitor's request is granted iff it opens a window or fewer than the limit were granted since the one that opened the current window, where windows follow from the request times alone: the first request, then the first at or after one window length from the opener; a refusal names the time to that end |
| `RateLimit.FewVisitorsAreTracked` | internal/middleware/rate_limit.go:126-140 | with at most 10,000 identifiers in play everyone is tracked |
| `RateLimit.AtMostTwiceTheLimit` | internal/middleware/rate_limit.go:98-122 | at most twice the limit is granted to such a visitor in any closed interval of one window |
| `RateLimit.TwiceTheLimitIsReached` | internal/middleware/rate_limit.go:98-122 | that bound is met: for every limit and window a run is granted twice the limit in one window of time |
| `RateLimit.GrantedIffWaited` | internal/middleware/rate_limit.go:115-117 | after a refusal the visitor's next request is granted iff it comes at least retryAfter later, whatever others did |
| `RateLimit.HeaderIsEnoughIff` | internal/middleware/rate_limit.go:57-60 | waiting exactly the seconds of the Retry-After header is enough iff the wait was at most a second or a whole number of seconds |
| `RateLimit.HeaderFallsShort` | internal/middleware/rate_limit.go:57-60 | one request per second and a half: a client that waits the one second of the header is refused again |
| `GuildMessages.GuildChannelRepository.CreateMessage` | internal/repository/guild_channel_repository.go:175-180 | adds the row under its new id |
| `GuildMessages.GuildChannelRepository.UpdateMessageContent` | internal/repository/guild_channel_repository.go:237-249 | changes the content of a message of this channel, or reports it missing |
| `GuildMessages.GuildChannelRepository.DeleteMessage` | internal/repository/guild_channel_repository.go:251-263 | removes a message of this channel, or reports it missing |
| `GuildMessages.ExtraRowMakesPage` | internal/service/guild_channel_service.go:185-196 | the first limit rows of a query for one more are the page; the extra row is has_more |
| `GuildMessages.NewestIsTheTop` | internal/repository/guild_channel_repository.go:229-230 | ordering by descending id and limiting yields the part of the ids from the last one up |
| `GuildMessages.OneExtraRow` | internal/service/guild_channel_service.go:185-196 | one row more than the limit tells whether older ones exist, without changing the page |
| `GuildMessages.ListMessages` | internal/service/guild_channel_service.go:176-203 | the page below the cursor with has_more and next_before, or the cursor or access error |
| `GuildMessages.MoreIffOlderRemain` | internal/service/guild_channel_service.go:190-196 | has_more iff the channel holds a message older than the page |
| `GuildMessages.PageIsOfTheChannel` | internal/repository/guild_channel_repository.go:223-235 | a page shows messages of the channel below the cursor and no others, newest first; every such message is on it or is an older one that the next cursor admits, and there is one if has_more |
| `GuildMessages.FetchIsListMessages` | internal/service/guild_channel_service.go:176-203 | the fetch step of a walk appends exactly the page the service returns and follows its cursor |
| `GuildMessages.WalkDescends` | internal/repository/guild_channel_repository.go:223-235 | over every run ids come in strictly descending order, so none comes twice |
| `GuildMessages.StayersAreReturned` | internal/service/guild_channel_service.go:190-196 | over every run a message present throughout is returned iff the walk has passed it; all of them once the walk is done |
| `GuildMessages.ArrivalsDoNotShiftPages` | internal/handler/guild_channel_handler.go:103-105 | messages posted after the first page was read never enter the walk |
| `GuildMessages.WalkIsBounded` | internal/service/guild_channel_service.go:190-196 | after the first page, a walk takes at most one fetch per message below its cursor, and one more, whatever is deleted or posted |
| `PasswordHash.SplitUndoesJoin` | pkg/password/password.go:121-123 | splitting at a separator undoes joining |
| `PasswordHash.DecodeUndoesEncode` | pkg/password/password.go:48-49 | decoding unpadded base64 undoes encoding, for every byte string |
| `PasswordHash.EncodeUndoesDecodeIff` | pkg/password/password.go:173-181 | encoding gives back the text that was read iff it holds no line ends and no leftover bits |
| `Base64Text.EncodedBits` | pkg/password/password.go:48-49 | each group of three bytes and its four letters of the RFC 4648 alphabet are the same 24 bits, a short last group filled up with zero bits |
| `Base64Text.DecodesIff` | pkg/password/password.go:173-181 | a text is decoded iff it holds only letters of the alphabet and line ends and no lone letter is left over; the bytes are those with these letters, but for leftover bits in the last |
| `PasswordHash.ParseArgon2idHash` | pkg/password/password.go:120-191 | the parser, with the error of every malformed part |
| `PasswordRefusal.AcceptedIff` | pkg/password/password.go:120-191 | a text of six parts is read as given parameters iff the scheme is argon2id, the version reads as 19, the costs are m, t and p once each and in range, and salt and key are base64 of the bytes |
| `PasswordRefusal.IncompatibleIff` | pkg/password/password.go:131-137 | the version error is given iff the scheme is argon2id and the version reads as another number; every other refusal is the general one |
| `PasswordRefusal.WrongNumberOfParts` | pkg/password/password.go:121-125 | a text with any other number of parts is refused |
| `PasswordRefusal.VersionIff` | pkg/password/password.go:131-133 | the version reads as a number iff it is "v=", blanks without a line feed, at most one sign, and digits of that value in 64 bits, up to anything that is not a digit |
| `PasswordHash.SegmentIff` | pkg/password/password.go:139-171 | a segment is read as given costs iff its three fields are m, t and p, each exactly once and in any order, with those values in range |
| `PasswordHash.OrderDoesNotMatter` | pkg/password/password.go:145-167 | all six orders of the fields parse the same or are all refused |
| `PasswordHash.PrintedText` | pkg/password/password.go:51-54 | the printed text is the format string of Hash, filled in |
| `PasswordHash.ParseUndoesPrint` | pkg/password/password.go:42-55 | parsing a printed hash gives back costs, salt and key, for all of them |
| `PasswordHash.CurrentIff` | pkg/password/password.go:92-110 | no rehash is needed iff the hash parses to the current costs and a 32-byte key; the bcrypt check alone decides nothing |
| `PasswordHash.FreshHashIsCurrentIff` | pkg/password/password.go:87-91 | a freshly printed hash is current iff its key has 32 bytes |
| `PasswordHash.ComparesWithWhatWasHashed` | pkg/password/password.go:60-85 | a password is accepted against a fresh hash iff it derives the same key |
| `PasswordText.JoinUndoesSplit` | pkg/password/password.go:121-123 | joining the split parts gives back the text |
| `PasswordText.PrintUndoesParseIff` | pkg/password/password.go:120-191 | for every text that parses, printing gives it back iff nothing precedes the first dollar sign, the version reads v=19, the costs stand in order m, t, p without leading zeros, and both base64 parts are canonical |
| `PasswordText.CurrentComparesIff` | pkg/password/password.go:60-110 | a hash that needs no rehash can be compared iff it starts with $argon2id$; otherwise every password gets an error |
| `PasswordText.JunkIsCurrent` | pkg/password/password.go:120-129 | with any text before the first dollar sign a hash parses, needs no rehash and refuses every password |
| `PasswordText.LooseVersionHash` | pkg/password/password.go:131-137 | for any hash, a text with blanks, a sign, a leading zero and trailing text in its version that parses the same |
| `PasswordText.LooseCostsHash` | pkg/password/password.go:145-167 | for any hash, a text with its costs in another order, or with a leading zero, that parses the same |
| `PasswordText.LineEndHash` | pkg/password/password.go:173-176 | for any hash, a text with a line end in its base64 that parses the same |
| `PasswordText.LeftoverBitsHash` | pkg/password/password.go:173-176 | for every one-byte salt, a text with a leftover bit that parses the same |
| `Quotes.NormalizeSymbols` | internal/platform/market/rapidapi_quote.go:112-127 | the loop computes the normalised list |
| `Quotes.NormalizedIsTheSet` | internal/platform/market/rapidapi_quote.go:111-127 | each non-empty canonical form of the input appears exactly once, and nothing else |
| `Quotes.NormalizedKeepsOrder` | internal/platform/market/rapidapi_quote.go:112-127 | forms come in the order in which they first appear |
| `Quotes.NormalizeIdempotent` | internal/platform/market/rapidapi_quote.go:112-127 | normalising again, as the inner client does, changes nothing |
| `Quotes.BatchesPartition` | internal/platform/market/rapidapi_quote.go:55-57 | the batches are consecutive pieces of 1 to 50 symbols that make up the list |
| `Quotes.FetchQuotes` | internal/platform/market/rapidapi_quote.go:48-66 | the batch loop computes the union of the answers, or the first error |
| `Quotes.DirectIsPriced` | internal/platform/market/rapidapi_quote.go:48-66 | batched fetching is the pointwise answer on the normalised symbols |
| `Quotes.CachedQuoteClient.Lookup` | internal/platform/market/cached_quote.go:50-61 | splits the symbols into those the cache answers with a positive price and the rest, in order |
| `Quotes.CachedQuoteClient.GetQuotes` | internal/platform/market/cached_quote.go:40-86 | result and cache contents of one call, including partial results |
| `Quotes.CacheDoesNotShow` | internal/platform/market/cached_quote.go:40-86 | while the provider answers, a call through any right cache returns exactly what a direct call does and keeps the cache right |
| `Quotes.FailuresAreHonest` | internal/platform/market/cached_quote.go:69-76 | when the provider may fail every returned price is still right; a partial answer is exactly the cached part, an error means nothing was cached |
| `Quotes.CacheAnswersWhenDown` | internal/platform/market/cached_quote.go:50-77 | while the provider is down a call answers with exactly the cached positive prices of the symbols asked for, and fails iff there are none |
| `Quotes.SecondCallNeedsNoProvider` | internal/platform/market/cached_quote.go:78-86 | what one call fetched and could store, the next reads back: with the provider down it returns the same prices |
| `Quotes.OnlyPositivePrices` | internal/platform/market/cached_quote.go:54-84 | through the cache only positive prices are returned and only such are stored, whatever the provider answers |
| `CorporateActions.DedupeCorporateActions` | internal/repository/corporate_action_repository.go:71-115 | the loop computes the merged rows |
| `CorporateActions.DedupedGroups` | internal/repository/corporate_action_repository.go:63-70 | exactly one row per (symbol, type, day), holding the first row, its kept notes and the first amount and dates given in the group |
| `CorporateActions.RowsAreTheEvents` | internal/repository/corporate_action_repository.go:82-107 | every event has one row, told from the input by position: it is the event's first row, but for its note and for the amount and dates, each of which is the first that any of the event's rows gives |
| `CorporateActions.EveryEventHasARow` | internal/repository/corporate_action_repository.go:63-81 | every (symbol, type, day) of the input has a row |
| `CorporateActions.RowsKeepTheirOrder` | internal/repository/corporate_action_repository.go:110-114 | rows come out in the order in which their keys first appeared |
| `CorporateActions.NoNoteIsLost` | internal/repository/corporate_action_repository.go:69-70 | every note can be read in the row of its key |
| `CorporateActions.DedupeIdempotent` | internal/repository/corporate_action_repository.go:71-115 | merging merged rows changes nothing |
| `Monthly.PrevNMonths` | internal/handler/holding_handler.go:457-467 | subtracts exactly n months |
| `Monthly.ParseMonthlyQuery` | internal/handler/holding_handler.go:305-378 | refuses exactly the bad years; otherwise the two ends named or defaulted, the later one first |
| `Monthly.GetMonthlyData` | internal/service/holding_service.go:362-432 | span + 1 consecutive months in order, each with its row or zeros, or the range error |
| `Monthly.MonthlyEndpoint` | internal/handler/holding_handler.go:281-298 | a parsed query is never refused as inverted, only as too wide; otherwise consecutive months, each with its row or zeros, together the user's holdings in the range; an omitted end gives 12 |
| `Monthly.EntriesAddUp` | internal/service/holding_service.go:377-432 | consecutive entries together are exactly the user's holdings of their months, counted and summed once each |

## Left out

- HTTP, routing, JSON, logging, metrics and activity-log rows: nothing modelled depends on them.
- JWT, SHA-256, Argon2id, bcrypt, random bytes and UUID generation: parameters or assumed fresh values.
- The Redis paths of the limiter and the hub: calls into a service that is not part of this model.
- `oauthExchangeCodes`, login, registration and password reset: lookups and writes without a protocol between them; a password change or account deletion appears as the step that deletes the user's sessions.
- The access check of the guild service (`resolveMemberChannel`), message replies and author joins: the first is a parameter, the others do not influence paging.
- Deletion of a user or an administrator: their rows in the moderation tables keep plain numbers.
- Database triggers, bookmarks, follows, likes, notifications and the other CRUD services: easy members only.
- `BlockedLinks.BlockedLink`: the reason is what its text names, the shortener or the host; the sentence around it is not modelled.
- `AuthService.Service.RefreshToken`: database errors other than a missing row, a lost race and a duplicate key appear only as requests that abort in the step system.
- `ChatStream.StepKeepsInv`: token usage numbers are carried but nothing is stated about them, and the upstream HTTP call is one step that succeeds or fails.
- `Quotes.CacheDoesNotShow`: prices do not change during the life of a cache entry; expiry of entries is covered by the set of readable keys, staleness is not.
- `RateLimit.HeaderIsEnoughIff`: seconds are exact integers, whereas the code goes through a float whose rounding matters only for waits of many weeks.
- `PasswordHash.ComparesWithWhatWasHashed`: constant-time comparison is plain equality.
- `GuildMessages.ListMessages`: limits are 1 to 100, which is what the handler passes.
- `Monthly.GetMonthlyData`: amounts are not formatted, and the date text of an entry is its year and month.
- Percentages, statistics endpoints and `prevMonth`: not needed by the properties proved.
