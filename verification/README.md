# A verified model of Spawnery's session, token and install protocols

This project models the parts of Spawnery whose correctness lies between operations rather than in any one of
them, and proves what they keep over every run. Where the Go code takes and releases a mutex, each critical
section is one atomic step and every interleaving is a sequence of steps; where it calls a store, GitHub or a
sink, a step may fail, or take effect and still report failure, or be the last thing the process does. Where a
request reads the clock before the section that uses it, any time may pass in between.

Each protocol has a pure side, a state machine with its invariants and theorems over whole runs, and an
imperative side, classes and loops in the shape of the Go code whose contracts equate their effect with the pure
side. Verify everything with `dafny verify dfyconfig.toml`.

| files | what they model |
|---|---|
| Codec, ReplayLog, ReplayProgress, TurnSerializer, TurnTheorems, TurnProgress, MuxSystem, Permissions, Mux | the ACP multiplexer: replay log with per-client cursors and one-slot wakeups, prompt serializer, first-answer-wins permissions, and all of them together |
| GithubMint, GithubMinter | minting access tokens from a single-use refresh chain, with write-ahead staging and recovery |
| RefreshFamilies, FamilyTheorems, FamilyCap, RefreshService | refresh-token families: rotation, reuse detection, grace replay, family cap |
| FamilyFeed, StoreResults, FamilyDenials, LiveDenials, NoticeLimits | the revocation feed: what it holds, what the store leaves row by row and notice by notice, when everything revoked is denied and nothing else is, which notices fit |
| RevocationFeed, FeedConsumers, FeedPolling | serving the feed in bounded pages, and its consumers while it changes |
| NodeCrl, NodeCrlService | issuing and publishing the node certificate revocation list under two locks |
| LinkFlow, LinkService | linking a GitHub account over two maps, with a reaper |
| ConfigTree, DeepMerge, ConfigAdditions, ConfigResults, ConfigAliasing | configuration merge in place on shared maps, translation over unordered maps, and what building additions does to the caller's configuration |
| Pop, ManagedIndex, ApplyReport, Frontmatter, Text | proof-of-possession bytes, upsert index, install accounting, frontmatter and provenance |

## What does not hold

Several things one would expect of the code are false of it. Each is kept as the code has it, with the exact
condition under which it does hold:

- A relink that meets a pending stage, or a mint that has or gets its new token, is overwritten; one that meets a
  mint whose token GitHub refuses is marked although its token is good: `GithubMint.RelinkSafeIff`,
  `GithubMint.MintOvertakesRelink`, `GithubMint.DeadMintSparesRelinkIff`, `GithubMint.RelinkOverStageIsUndone`.
- A refresh chain can be lost, and exactly four kinds of step lose it: `GithubMint.StepLosesIff`,
  `GithubMint.CrashConsistent`.
- A token recovered from a stage may be handed out expired: `GithubMint.RecoveredTokenExpiredIff`.
- A logout everywhere whose clock reading is behind can leave a revoked session that no notice denies, because
  compaction keeps the latest cutoff: `FamilyDenials.LogoutEverywhereKeepsIff`, `FamilyDenials.RevokedMeansDeniedIff`,
  `FamilyDenials.LogoutThatIsBehind`; or be refused for naming too many tokens: `NoticeLimits.AccountNoticeFits`,
  `NoticeLimits.TooManyToAnnounce`.
- A session in use can be denied: a login or refresh that read the clock before a logout everywhere, and inserts
  after it, is cut off although nobody revoked it: `LiveDenials.StepDeniesLiveIff`, `LiveDenials.LiveNeverDeniedIff`,
  `LiveDenials.LoginThatIsBehind`.
- A feed consumer does not receive every entry: what is compacted or pruned before it asks is gone, though not what it
  denied: `FeedConsumers.EachNumberOnce`, `FeedConsumers.OneOfTwoIsMissed`, `FeedConsumers.CaughtUpConsumerDenies`.
- Overlapping logins exceed the family cap, without limit, and no later login repairs it: `FamilyCap.CapHoldsIff`,
  `FamilyCap.TwoAtATimeReachAnyNumber`, `FamilyCap.SerialLoginCount`.
- A renewed revocation list may be replaced by one that ends too soon, because a call reads the clock before it
  waits for the lock: `NodeCrl.EnsurePublishesFreshIff`, `NodeCrl.StragglerOccurs`.
- The reaper does not revoke every abandoned token. A token is lost, for good, to a failed look-up of its user, a
  second callback or a denial after it, a redeem with an older copy, an eviction while it is in hand, an answer or a
  call that fails, or a crash, each under its exact condition: `LinkFlow.StrandsIff`, `LinkFlow.StrandedMeansLost`,
  `LinkFlow.OverwrittenTokenIsLost`.
- Building additions writes into the caller's native configuration, for opencode's tools table and nothing else:
  `ConfigAliasing.NativeKeptIff`, `ConfigAliasing.ToolsTableIsOverwritten`, `DeepMerge.LayerAdditions`.
- Merging is not associative across a map, a scalar and a map: `ConfigTree.AssociativeIff`.
- An opencode pattern both allowed and denied reads as the map's iteration order has it:
  `ConfigAdditions.InconsistentOrdersDiffer`.
- A banner injected behind a closing delimiter without a newline leaves a file that no longer splits:
  `Frontmatter.ResplitIff`.
- Two managed entries collide when a name holds the key separator: `ManagedIndex.SeparatorConfuses`,
  `ManagedIndex.KeysAgreeIff`.
- An upstream that reuses a permission id while it is pending displaces the earlier request, which is never
  answered: `Permissions.EveryRequestHasOneFate`, `Permissions.NothingDisplacedIff`.

## Model

| member | source | states |
|---|---|---|
| Codec.AsIntOfIntID | internal/acp/codec.go:28-45 | reading back an integer id gives the integer, for every 64-bit value, so an echoed id finds its request |
| Codec.AsIntOnlyIntegers | internal/acp/codec.go:36-45 | string, null and absent ids never pass for integers |
| Codec.AsIntMeans | internal/acp/codec.go:36-45 | exactly the raw ids that are integers: between blanks an optional sign, leading zeros and decimal digits, within 64 bits |
| Codec.ItoaInjective | internal/acp/codec.go:28-34 | two integers never share an id text, so table keys do not collide |
| ReplayLog.LogIsHistoryTail | internal/acpmux/acpmux.go:581-648 | in every reachable state the log holds the last min(appended, maxLog) items ever appended, no fewer, contiguously numbered; the replay loop's slice index is in range; a client's done channel is closed once when it leaves and never again |
| ReplayLog.StreamRefinesHistory | internal/acpmux/acpmux.go:607-648 | what a client's replay goroutine has written is, in strictly increasing number and without repeats, made of items broadcast or targeted at that client, and every such item up to its cursor is written, in hand, or skipped; a number is skipped only when at least maxLog items have been appended after it |
| ReplayLog.ShownExact | internal/acpmux/acpmux.go:622-640 | the reference stream holds exactly the client's items of a stretch of the history, less those skipped |
| ReplayLog.ShownIncreasing | internal/acpmux/acpmux.go:622-640 | the reference stream is in strictly increasing number |
| ReplayLog.NothingMissing | internal/acpmux/acpmux.go:622-640 | as long as the client's cursor is never more than maxLog items behind, nothing is skipped |
| ReplayLog.NoLostWakeup | internal/acpmux/acpmux.go:459-473 | a connected client with a session that sleeps behind the log has a token in its channel, or its read loop is still about to call wake |
| ReplayLog.QuietClientIsCaughtUp | internal/acpmux/acpmux.go:595-648 | a sleeping client with no token and no wake on its way has been written everything meant for it |
| ReplayLog.CatchUpHands | internal/acpmux/acpmux.go:607-648 | one catch-up hands over exactly the log's stretch beyond the cursor and records what had been trimmed |
| ReplayLog.LateJoinerGetsTheLog | internal/acpmux/acpmux.go:402-428 | a client starts at the base of the log, and its first catch-up with a session hands it, in order, exactly the items for it among the last maxLog appended |
| ReplayLog.JoinerIsReady | internal/acpmux/acpmux.go:402-473 | in every state of a run a client can connect, gets an id of its own and the base as cursor, and with its session and a token is about to catch up |
| ReplayProgress.EveryClientCanCatchUp | internal/acpmux/acpmux.go:595-648 | no client is left behind: from every reachable state a connected client with a session can be written everything appended so far that is meant for it and was not trimmed first |
| TurnTheorems.PromptsAreSerialized | internal/acpmux/acpmux.go:513-531 | a free slot means an empty queue, at most 50 wait, at most one prompt is at upstream, prompts reach it in the order they were accepted, and lines on their way carry the in-flight id |
| TurnTheorems.PromptIsRefusedIff | internal/acpmux/acpmux.go:513-531 | in every reachable state a prompt takes the slot exactly if every accepted one has ended, is refused exactly if 51 have not, and queues otherwise |
| TurnTheorems.OnlyThePromptEndsATurn | internal/acpmux/acpmux.go:284-331 | a reply ends a turn exactly if it answers the prompt in flight: replies to handshakes and mode switches never do |
| TurnTheorems.EveryRequestHasOneFate | internal/acpmux/acpmux.go:345-382 | each request is exactly one of refused, about to be refused, queued, in the slot, or ended, and never twice |
| TurnTheorems.ResultsAreExact | internal/acpmux/acpmux.go:345-382 | the results in the log, with the one the reader holds, are exactly those of the ended turns whose client was registered, each once and in the order the turns ended |
| TurnTheorems.TurnsDoNotOverlap | internal/acpmux/acpmux.go:284-382 | in the log the result of a turn comes after all its updates and before every update of a later turn, although the slot is freed before the result is appended |
| TurnProgress.EveryPromptCanEnd | internal/acpmux/acpmux.go:266-382 | no prompt gets stuck: from every reachable state before Stop some run from there ends every turn accepted so far, in order |
| MuxSystem.ClientReadsTurnsInOrder | internal/acpmux/acpmux.go:284-382 | the same order holds in everything any client's replay goroutine writes |
| MuxSystem.AnswersAreOwn | internal/acpmux/acpmux.go:569-579 | an answer a client reads carries that client's own request id and the outcome of that request |
| MuxSystem.AnswersAreUnique | internal/acpmux/acpmux.go:345-382 | no client reads two answers to one request |
| MuxSystem.AnswerReachesItsClient | internal/acpmux/acpmux.go:345-382 | when a turn has ended with its client registered, a caught-up client has read its answer unless it was trimmed first |
| MuxSystem.ConnectAlwaysPossible | internal/acpmux/acpmux.go:402-417 | client ids are never reused: in every reachable state a connection can be registered |
| Permissions.RejectOptionID | internal/acpmux/acpmux.go:811-826 | the option chosen without an answer is the first whose kind contains reject or deny, else the first offered, else empty |
| Permissions.AutoDenyRejects | internal/acpmux/acpmux.go:811-826 | the specification of that choice: a reject-like option wins wherever it stands |
| Permissions.AtMostOneReply | internal/acpmux/acpmux.go:723-742 | however clients, timers and Stop interleave, and even if upstream reuses ids, no recorded request is answered twice, and an answer carries its own request's id |
| Permissions.EveryRequestHasOneFate | internal/acpmux/acpmux.go:656-742 | a recorded request is pending, answered, displaced by a later one under its id, or cleared by Stop, exactly one of these |
| Permissions.NothingIsForgotten | internal/acpmux/acpmux.go:676-742 | a pending request can always be answered, by its timer if by nobody else, and until Stop every answer taken has been sent or can be |
| Permissions.FirstAnswerWins | internal/acpmux/acpmux.go:723-742 | the first resolver's option goes upstream, a reject-like one if it gave none, and later answers change nothing |
| Permissions.EchoFindsItsRequest | internal/acpmux/acpmux.go:714-721 | a client that echoes the id it was sent resolves that very request |
| Permissions.NothingTakenAfterStop | internal/acpmux/acpmux.go:182-209 | after Stop no permission is resolved any more; what may still be written was taken before |
| Permissions.NothingDisplacedIff | internal/acpmux/acpmux.go:656-684 | over a whole run no request is displaced exactly if upstream never uses an id again while it is pending |
| Mux.Mux.AppendItem | internal/acpmux/acpmux.go:581-593 | the item gets the next number and stands last; of a full log exactly the oldest item goes; every connected client has a token and keeps its cursor |
| Mux.Mux.TakeBatch | internal/acpmux/acpmux.go:607-640 | exactly the items beyond the cursor, or the base if that is later, that are broadcast or targeted at the client, in order; the cursor moves to the end |
| Mux.Mux.Register | internal/acpmux/acpmux.go:402-417 | a connection gets a new id and starts at the log's base, without a session or a token |
| Mux.Mux.Detach | internal/acpmux/acpmux.go:418-428 | a client is removed and its done channel closed only if it is still in the table |
| Mux.Mux.Stop | internal/acpmux/acpmux.go:182-209 | every client is closed once and both tables are emptied; a second call does nothing |
| Mux.Mux.Submit | internal/acpmux/acpmux.go:513-531 | a prompt takes the free slot, queues behind fewer than 50, or is refused |
| Mux.Mux.Launch | internal/acpmux/acpmux.go:266-278 | launching allocates the next id and records whom the turn belongs to |
| Mux.Mux.Classify | internal/acpmux/acpmux.go:295-311 | a reply is a waiter's, ends the turn, or is ignored |
| Mux.Mux.EndTurn | internal/acpmux/acpmux.go:345-382 | ending a turn clears the slot, takes the next queued prompt and answers only a registered client |
| Mux.Mux.RecordPermission | internal/acpmux/acpmux.go:672-684 | a request is recorded under its id's text unless stopped |
| Mux.Mux.ResolvePermission | internal/acpmux/acpmux.go:723-742 | the entry is removed and answered by the first resolver only: with its option, or if it gave none with the automatic one |
| GithubMint.StageCanOutliveItsMint | internal/authsvc/github_mint.go:167-192 | such stages occur: a run whose commit fails leaves one behind |
| GithubMint.CrashConsistent | internal/authsvc/github_mint.go:78-199 | whatever fails, wherever the process dies and whenever the user relinks: a pending stage holds GitHub's current refresh token; with no stage and no mint under way the live refresh token is current exactly if no losing step has happened since the last relink, and if it is not, its access token is too old to serve. If the last relink was settled, a stage stands at version live + 1 and a link is marked only when its chain is lost |
| GithubMint.StepLosesIff | internal/authsvc/github_mint.go:144-187 | in every state of every run, the steps that lose the live token's chain are exactly these: GitHub rotates it and the answer is lost, or refuses it while it was current; the successor is not staged, for the store fails or the row is revoked; the process dies between answer and stage; and only a relink mends it |
| GithubMint.SettledRelinkRestores | internal/authsvc/store/github_links.go:245-289 | whatever earlier relinks have spoilt, one that meets no stage and no mint that can still reach GitHub puts the whole invariant back |
| GithubMint.RelinkSafeIff | internal/authsvc/store/github_links.go:245-289 | from any state of any run, the relinked chain stays the link's in every continuation without another relink, and is marked only when lost, exactly if the relink met no stage and no mint under way, save one whose node knows another delivery and which can only serve or refuse; the upsert leaves the stage in place |
| GithubMint.MintOvertakesRelink | internal/authsvc/github_mint.go:144-192 | what becomes of a relink that a mint under way overtakes, phase by phase: a mint that has or still gets its new token overwrites the relinked one at the relink's own version; one that GitHub has refused or still will, also one that has only looked, marks the new link although its token is good |
| GithubMint.DeadMintSparesRelinkIff | internal/authsvc/github_mint.go:144-192 | if the mint dies after the relink, the relink is unharmed exactly if nothing had been staged |
| GithubMint.RelinkOverStageIsUndone | internal/authsvc/store/github_links.go:245-289 | over any stage left behind, the next mint replaces the relinked token by the old chain's, at the relink's own version |
| GithubMint.LossIsFinal | internal/authsvc/github_mint.go:144-169 | in any run, relinks anywhere in it, once a chain is lost no later mint hands out any token until the user relinks again |
| GithubMint.VersionNamesToken | internal/authsvc/github_mint.go:78-231 | in any run, relinks anywhere in it, answers with one version carry one token, and versions never go back |
| GithubMint.MarkedLinkIsShut | internal/authsvc/github_mint.go:91-94 | until a relink, a marked link neither answers nor reaches GitHub |
| GithubMint.LostChainConverges | internal/authsvc/github_mint.go:144-152 | a mint on a lost chain can only be refused by GitHub, and then marks the link or leaves it as it was |
| GithubMint.NeverRefreshesOverAStage | internal/authsvc/github_mint.go:95-115 | GitHub is never called while a stage is pending, in any run, relinks included |
| GithubMint.CachedAnswersLive | internal/authsvc/github_mint.go:120-142 | in any run a token handed out without a refresh has more than ten minutes left |
| GithubMint.RecoveredTokenExpiredIff | internal/authsvc/github_mint.go:95-115 | a recovered token is handed out however old: it has life left exactly when the recovery comes before its expiry |
| GithubMint.CommitAdvancesByOne | internal/authsvc/github_mint.go:211-231 | each commit moves the link exactly one version on, to the staged tuple, which is GitHub's current one |
| GithubMinter.Minter.Mint | internal/authsvc/github_mint.go:78-199 | the whole answer in the fields of row, reference and GitHub: not found, marked, staged, refreshed when the reference fits and ten minutes or less are left, served when it fits with more left or is older than a link with more left, and otherwise denied with nothing changed; for each outcome of GitHub and store what row and GitHub hold; and that is the protocol's run for those faults |
| GithubMinter.GitHub.Refresh | internal/authsvc/github_mint.go:144-155 | a refresh token is good once: only the current one rotates, and rotating spends it even if the answer is lost |
| GithubMinter.LinkStore.StageRotation | internal/authsvc/store/github_links.go:168-199 | staging changes an unrevoked row's stage and nothing else |
| GithubMinter.LinkStore.Rotate | internal/authsvc/store/github_links.go:98-148 | committing makes the staged tuple live and clears stage and mark, on an unrevoked row |
| GithubMinter.LinkStore.MarkRelinkRequired | internal/authsvc/store/github_links.go:203-216 | marks an unrevoked row |
| GithubMinter.LinkStore.RedeemUpsert | internal/authsvc/store/github_links.go:245-289 | inserts version 1 or advances the row's version, and does not touch a stage |
| GithubMinter.LinkStore.Revoke | internal/authsvc/store/github_links.go:150-164 | revokes an unrevoked row and nothing else of it, or finds none |
| RefreshFamilies.OneHeadPerFamily | internal/authsvc/refresh.go:82-152 | over all runs of logins, refreshes, replays, logouts and evictions a family is one unbranched chain with exactly one row not superseded, and all its rows share one fate |
| RefreshFamilies.RotationExtendsChain | internal/authsvc/store/sessions.go:68-91 | only the chain's last row can rotate; the successor becomes the new last, and it alone leaves a cache behind it |
| FamilyTheorems.OnePairPerToken | internal/authsvc/refresh.go:114-128 | over a whole run a token is exchanged for one pair only, however often it is presented |
| FamilyTheorems.PresentationPassesIff | internal/authsvc/refresh.go:82-112 | in every reachable state a presentation passes the checks exactly if the token is known and not revoked, its family younger than 90 days, it was issued less than 30 days ago and the proof is valid; otherwise the first of these that fails is the refusal |
| FamilyTheorems.UnusedIsGrantedIff | internal/authsvc/refresh.go:33-73 | an unused token that passes, with no store failure, is exchanged exactly if the family has fewer than 384 rows with unexpired access tokens, the account fewer than 384 rows born this second, and the new name is free |
| StoreResults.EveryAnswerIsRecorded | internal/authsvc/refresh.go:114-152 | what is handed out goes on record against the token presented, and nothing else does |
| StoreResults.ReuseAnnounces | internal/authsvc/refresh.go:126-135 | reuse is a revocation of the family like a logout's, committed although the caller is refused |
| FamilyTheorems.SupersededTokenFate | internal/authsvc/refresh.go:114-139 | a superseded token that passes the checks is answered again exactly if it was superseded within 45 seconds, by the request's clock reading, and its successor is unused: with that successor's pair and no change; any other reuse commits the family's revocation although the caller is refused, unless the family has too many live tokens for one notice, when nothing changes |
| FamilyTheorems.RefusalsChangeNothing | internal/authsvc/refresh.go:82-112 | every refusal but that for reuse leaves the store as it was |
| FamilyTheorems.FreshTokenRotates | internal/authsvc/refresh.go:33-73 | an unused token that passes the checks is exchanged for a new one in the same family, for 30 days, with access tokens for 15 minutes, alone exchangeable next; of the family all older caches are cleared, and no other row changes |
| FamilyTheorems.RevocationIsFinal | internal/authsvc/refresh.go:94-96 | once a family is revoked none of its tokens is ever exchanged again |
| FamilyTheorems.NothingOutlivesTheFamily | internal/authsvc/refresh.go:97-104 | no refresh succeeds at or after the family's ninetieth day, nor thirty days after its token was issued, and no access token of the family outlives the ninetieth day by fifteen minutes |
| FamilyTheorems.GrantsNeedProof | internal/authsvc/refresh.go:106-112 | nothing is handed out without a valid proof, nor for an unknown or revoked token |
| FamilyTheorems.CacheIsSuccessor | internal/authsvc/store/sessions.go:68-91 | a row's cache is there exactly while its successor is the unrevoked family's last row, and holds that successor's pair |
| FamilyFeed.CompactionChooses | internal/authsvc/store/revocations.go:98-132 | with one stored notice per account, a logout everywhere keeps the stored one if its cutoff is later, else the new one, which takes over the stored one's tokens if they share the cutoff |
| StoreResults.CompactMeans | internal/authsvc/store/revocations.go:98-132 | compaction keeps of the account's notices the one with the latest cutoff, of several the newest, with the tokens of all that share its cutoff, unless they are more than 1024; no other notice is touched |
| StoreResults.PrunedMeans | internal/authsvc/store/revocations.go:151-163 | pruning takes exactly the expired tokens out, and exactly the family notices left with none |
| StoreResults.RevokeOneMeans | internal/authsvc/store/sessions.go:93-128 | a family is revoked row by row and its live tokens announced under the next number, or, with more than 1024 of them, nothing happens |
| StoreResults.RevokeAllMeans | internal/authsvc/store/sessions.go:97-128 | an account is revoked row by row, its tokens not older than the cutoff announced and its notices compacted, or, if too many tokens would be named, nothing happens |
| StoreResults.SupersedeMeans | internal/authsvc/store/sessions.go:68-91 | a row is superseded exactly if it is unrevoked and unused and the insertion limits of 384 hold; row by row what becomes of the family |
| FamilyFeed.PageCompactionIsIdle | internal/authsvc/store/revocations.go:164-173 | in every reachable state an account has at most one account-wide notice, so the compaction repeated by every page call changes nothing |
| FamilyFeed.ReachableFeed | internal/authsvc/store/revocations.go:35-96 | in every run the feed is numbered upwards, its notices are well formed and within the token limit, and they name issued tokens of their own account, an account-wide one none older than its cutoff; no two tokens share an id |
| FamilyDenials.LogoutEverywhereKeepsIff | internal/authsvc/logout.go:91-100 | with a clock read any time before, a logout everywhere keeps every revoked unexpired token denied exactly if no row slips: none that is too young for a stored later cutoff and not named by it, and none that only an older notice names |
| FamilyDenials.RevokedMeansDeniedIff | internal/authsvc/store/revocations.go:98-173 | over a whole run of logins, refreshes, logouts, evictions and polls, all with stale clock readings, every revoked unexpired token is denied by the feed at every moment exactly if each logout everywhere was of that kind |
| FamilyDenials.RevokedMeansDenied | internal/authsvc/store/revocations.go:98-173 | that is so in every run whose logouts everywhere do not read the clock before the birth of a row they revoke |
| FamilyDenials.LogoutThatIsBehind | internal/authsvc/logout.go:59-100 | and it fails otherwise: a run in which a logout everywhere that read the clock a second early leaves a revoked session whose tokens no notice denies |
| FamilyDenials.PruningKeepsDenials | internal/authsvc/store/revocations.go:151-163 | pruning the feed drops the denials of expired tokens only |
| LiveDenials.LiveIsDeniedIff | internal/cp/auth/revocation.go:29-37 | in every reachable state the feed denies a session in use exactly by a cutoff after its birth: no notice names its tokens |
| LiveDenials.StepDeniesLiveIff | internal/authsvc/oauth.go:174-264 | a step makes the feed deny a session in use exactly if it inserts that session, a login's or a refresh's, with a clock reading that a stored cutoff of the account has overtaken |
| LiveDenials.LiveNeverDeniedIff | internal/authsvc/oauth.go:174-264 | over a whole run no session in use is ever denied exactly if no insertion is behind in that way |
| LiveDenials.LoginThatIsBehind | internal/authsvc/oauth.go:174-264 | and it happens: a login reads the clock, the account logs out everywhere, and the session inserted then is live and denied |
| NoticeLimits.FamilyNoticeFitsIff | internal/authsvc/store/sessions.go:41-66 | a family can be revoked exactly while at most 512 of its rows are live by the clock as read; a reading not behind its rows sees at most 384, by the insertion limit |
| NoticeLimits.AccountNoticeFits | internal/authsvc/store/sessions.go:41-66 | a logout everywhere is accepted whenever no row of the account is younger than its clock reading, at most 768 tokens with the compaction included; otherwise exactly if at most 512 live rows are younger and the kept notice stays within 1024 |
| NoticeLimits.TooManyToAnnounce | internal/authsvc/store/revocations.go:70-72 | a reachable state in which a logout everywhere that read the clock nine minutes ago is refused, and revokes nothing |
| FamilyCap.CapExceededByExtras | internal/authsvc/oauth.go:230-264 | over all interleavings of counting, choosing, evicting and inserting logins with each other and with refreshes and logouts, an account has at most as many families beyond the cap as logins whose insert was not the first in a stretch of time in which it always had a login under way |
| FamilyCap.LoginStepMeans | internal/authsvc/oauth.go:230-264 | what each of a login's transactions does: count, evict, insert |
| FamilyCap.SerialLoginsKeepTheCap | internal/authsvc/oauth.go:514-534 | with one login of an account under way at a time the cap is never exceeded |
| FamilyCap.ConcurrentLoginsOvershoot | internal/authsvc/oauth.go:514-534 | at or above the cap, two overlapping logins find the same oldest family, evict it between them and add two |
| FamilyCap.TwoAtATimeReachAnyNumber | internal/authsvc/oauth.go:230-264 | with two logins of an account at a time there is no number of families that some run does not reach, whatever the cap |
| FamilyCap.CapHoldsIff | internal/authsvc/oauth.go:230-264 | so the cap holds in every run exactly if an account's logins are handled one at a time |
| FamilyCap.SerialLoginCount | internal/authsvc/oauth.go:514-534 | an undisturbed login adds a family below the cap and exchanges the oldest at or above it, so an overshoot is not repaired |
| RefreshService.IdP.HandleRefresh | internal/authsvc/refresh.go:77-152 | answer and store are those of the specified step for the clock as it was read; reuse commits, every other failure rolls back |
| RefreshService.IdP.Logout | internal/authsvc/logout.go:51-101 | a logout revokes the family, or the whole account, and announces it, row by row and notice by notice, in one transaction that rolls back if the notice is refused |
| RefreshService.IdP.LogIn | internal/authsvc/oauth.go:230-264 | below the cap a birth alone, at or above it after revoking an oldest family; a refused eviction ends the login |
| RefreshService.SessionStore.Append | internal/authsvc/store/revocations.go:35-57 | gives a notice the next number, refuses one with too many tokens, and compacts after an account-wide one |
| RefreshService.SessionStore.CompactAccount | internal/authsvc/store/revocations.go:98-132 | selects the keeper by latest cutoff and number, merges the tokens of its cutoff, and deletes the account's other notices |
| RefreshService.SessionStore.Prune | internal/authsvc/store/revocations.go:151-173 | exactly the expired tokens go, and family notices left with none; compacting every account then finds nothing to do |
| RefreshService.IdP.OldestFamily | internal/authsvc/store/sessions.go:139-151 | an unrevoked family of least birth time |
| RefreshService.SessionStore.Supersede | internal/authsvc/store/sessions.go:68-91 | clears the other caches, stamps the predecessor unless it was used, inserts the successor |
| NodeCrl.CommitsCountUp | internal/authsvc/noderevocation.go:211-246 | committed numbers rise by exactly one from 1, each list lasts a day or as long as the issuer, and at all times the committed one names exactly the issuer's revoked leaves |
| NodeCrl.PublicationsNeverGoBack | internal/authsvc/noderevocation.go:257-271 | in every interleaving the sink never goes back to an older list and holds only committed ones |
| NodeCrl.RevokedStaysListed | internal/authsvc/noderevocation.go:17-61 | once a revocation or reconciliation returns success the sink lists its leaves from then on, through later publications, sink failures and crashes |
| NodeCrl.EnsureCommitsFresh | internal/authsvc/noderevocation.go:140-186 | when an ensure commits, the committed list runs beyond now + renewBefore exactly if the issuer does |
| NodeCrl.EnsurePublishesFreshIff | internal/authsvc/noderevocation.go:140-186 | once an ensure has committed, the sink runs beyond now + renewBefore in every crash-free continuation in which it succeeds exactly if the issuer lives that long and no straggler waits: a revocation of an unlisted leaf, or a reconciliation that can bind, which read the clock a day or more before that time |
| NodeCrl.StragglerOccurs | internal/authsvc/noderevocation.go:30-56 | such states are reachable, for every issuer: a revocation that read the clock early still waits when an ensure that should renew has committed |
| NodeCrl.CommittedListsLeaves | internal/authsvc/noderevocation.go:211-246 | each transaction extends the history by at most the next number, and the list it leaves names its leaves |
| NodeCrl.RevokeTransacts | internal/authsvc/noderevocation.go:30-56 | a revocation goes through exactly if the leaf has no row, or its row names this node and a list is committed; then nothing changes, and a new row comes with a list over all rows under the next number |
| NodeCrl.ReconcileTransacts | internal/authsvc/noderevocation.go:65-137 | a reconciliation goes through exactly if it names every legacy row, with distinct unrevoked certificates; each legacy row becomes its certificate's, and nothing else does |
| NodeCrl.EnsureTransacts | internal/authsvc/noderevocation.go:140-186 | an ensure leaves a list that runs beyond now + renewBefore and otherwise commits the next one over the same rows |
| NodeCrl.CallMeans | internal/authsvc/noderevocation.go:17-186 | the steps of a call: what fails it, what its transaction leaves, what it reads and writes, and when it succeeds |
| NodeCrl.RetryPublishes | internal/authsvc/noderevocation.go:17-61 | from every reachable state, calling again a revocation that committed succeeds without another commit and leaves the sink with a list naming the leaf |
| NodeCrl.RecordedStays | internal/authsvc/noderevocation.go:30-56 | what such a revocation recorded stays in every continuation |
| NodeCrl.CommitRecords | internal/authsvc/noderevocation.go:30-56 | a revocation that commits is recorded, also if the commit is reported as failed |
| NodeCrlService.Service.IssueNodeCRL | internal/authsvc/noderevocation.go:211-246 | the loop lists exactly the issuer's rows, under the next number, with the capped next update |
| NodeCrlService.Service.RevokeNodeCertificate | internal/authsvc/noderevocation.go:17-61 | undisturbed it succeeds exactly if the issuer is the service's and the leaf is new, or already this node's with a list committed, when nothing is committed again; on success the sink lists the leaf; otherwise the revocation is there with its list or not at all |
| NodeCrlService.Service.EnsureCurrentNodeCRL | internal/authsvc/noderevocation.go:140-186 | undisturbed, it succeeds, and the sink then runs beyond now + renewBefore exactly if the issuer does; a list that runs that long already is left |
| NodeCrlService.Service.PublishCurrent | internal/authsvc/noderevocation.go:257-271 | the sink is written whole or not at all, and only success is reported as such |
| LinkFlow.PersistedOnceForItsStarter | internal/authsvc/github_link.go:224-461 | under concurrent callbacks, redeems and reaps a flow is persisted at most once, under gh: and the account that started it, and only if its redeem came within fifteen minutes of its start |
| LinkFlow.CompleterNamesItsTuple | internal/authsvc/github_link.go:394-461 | for a flow started for web or loopback the tuple persisted is the one whose callback delivered the completer presented, even if another callback overwrote the flow |
| LinkFlow.KindIsTheStarters | internal/authsvc/github_link.go:224-271 | in every reachable state a flow, its states, callbacks, redeems and link all carry the kind its start asked for |
| LinkFlow.RedeemPassesIff | internal/authsvc/github_link.go:370-410 | in every reachable state a redeem may go on exactly if the flow is ready, started at most fifteen minutes ago by this account, and either started for a device or presented with its completer |
| LinkFlow.StepRecords | internal/authsvc/github_link.go:224-461 | what each step puts on record: starts, tokens GitHub issued, completers delivered and links persisted |
| LinkFlow.StepMovesCalls | internal/authsvc/github_link.go:283-441 | when callbacks and redeems begin, go on and end, and what a crash leaves |
| LinkFlow.ReaperSparesLinks | internal/authsvc/github_link_reaper.go:11-36 | the reaper never takes on or revokes a token that is or will be persisted, given that tokens are distinct |
| LinkFlow.OnePlaceAtATime | internal/authsvc/github_link.go:283-440 | a token GitHub issued is in one place at a time: with a callback, ready in its flow or copied from it by a redeem that may still take it, taken by a redeem, persisted, or with the reaper |
| LinkFlow.StrandedMeansLost | internal/authsvc/github_link.go:283-440 | a token that is in none of these, or whose callback has lost its flow, is persisted or revoked in no continuation, however lucky; every other one is in some continuation |
| LinkFlow.StrandsIff | internal/authsvc/github_link.go:283-440 | step by step and token by token, exactly what strands a token, and what is stranded stays so: an exchange whose answer is lost or finds the flow gone; a callback that gives up with the token, as when the user cannot be fetched; a callback that completes, or a denial, over a tuple no waiting redeem has copied; a redeem that takes the flow with another token; a failed persist; the last copy of an overwritten token given up; a reaper that evicts the flow while the token is in a callback's or waiting redeem's hands only, or fails to revoke; a crash with the token in memory |
| LinkFlow.OverwrittenTokenIsLost | internal/authsvc/github_link.go:318-338 | and nothing need fail for it: two callbacks of one flow, each with a token from GitHub, leave the first one's stranded |
| LinkService.ConstantTimeEqual | internal/authsvc/github_link.go:584-593 | the accumulator loop decides equality of byte strings |
| LinkService.Links.Start | internal/authsvc/github_link.go:224-271 | a start files a state and an issued flow of the kind and account asked for, both good for fifteen minutes |
| LinkService.Links.CallbackLook | internal/authsvc/github_link.go:277-293 | the first section finds a state unexpired by the clock as read, or nothing |
| LinkService.Links.CallbackFinish | internal/authsvc/github_link.go:320-345 | the last section makes the flow ready with its tuple and completer and spends the state, or finds it gone |
| LinkService.Links.ServeCallback | internal/authsvc/github_link.go:277-345 | an undisturbed callback is the protocol's steps for its outcome, and links exactly if the state is known and unexpired, GitHub answered, the user was fetched and the flow is there |
| LinkService.Links.Reap | internal/authsvc/github_link_reaper.go:11-36 | exactly the expired entries go, and exactly the ready flows' tokens are taken on |
| LinkService.Links.CallbackDenied | internal/authsvc/github_link.go:295-304 | a denial marks the flow and spends the state |
| LinkService.Links.RedeemLook | internal/authsvc/github_link.go:370-410 | exactly an unexpired, ready flow of the caller's account, with its completer unless for a device, may go on |
| LinkService.Links.RedeemPop | internal/authsvc/github_link.go:430-441 | one redeem takes the flow; the loser finds it gone |
| ConfigTree.SourceWins | internal/agentinstall/config.go:49-61 | the source wins at every leaf it has |
| ConfigTree.UncoveredIsKept | internal/agentinstall/config.go:49-61 | the destination keeps every path the source does not cover |
| ConfigTree.NothingInvented | internal/agentinstall/config.go:49-61 | every leaf of the result is the source's, or an uncovered one of the destination |
| ConfigTree.MergeIdempotent | internal/agentinstall/config.go:49-61 | merging the same source again changes nothing |
| ConfigTree.AssociativeIff | internal/agentinstall/config.go:49-61 | merging is associative exactly unless a non-map stands between two maps, the later of which lacks a key of the earlier |
| DeepMerge.MergedIsMerge | internal/agentinstall/config.go:49-61 | the aliased heap that the merge leaves shows the merged tree |
| DeepMerge.DeepMerge | internal/agentinstall/config.go:49-61 | the recursive in-place merge terminates with the specified heap and changes only the destination's own maps, so the source is as it was |
| DeepMerge.MergeTwice | internal/agentinstall/config.go:49-61 | on disjoint trees a second merge, now with shared maps, leaves every map as the first did |
| DeepMerge.StillSeparate | internal/agentinstall/config.go:49-61 | after a merge the two may be merged again although they share the source's maps |
| DeepMerge.FirstLayerUnchangedIff | internal/agentinstall/config.go:49-61 | merging a layer over maps linked in from another leaves all of that one's maps as they were exactly if below each key with a map on both sides the merge is the map itself |
| DeepMerge.LayerAdditions | internal/agentinstall/config.go:319-335 | filtering, merging into a fresh map and merging the translation over it show the merge of both layers; the translation's maps are untouched, and the caller's are unchanged exactly if they already say what is merged over them |
| ConfigAliasing.NativeKeptIff | internal/agentinstall/config.go:198-209 | what translation merges over the native layer changes nothing of it for claude, codex and other agents, and for opencode exactly if the native tools table, where it is a map, has every disabled tool switched off already |
| ConfigAliasing.BuildOnMaps | internal/agentinstall/config.go:308-336 | buildAdditions on the maps themselves gives the specified additions, and changes the caller's native configuration exactly in that case |
| ConfigAliasing.ToolsTableIsOverwritten | internal/agentinstall/config.go:198-209 | a configuration whose native tools table is changed |
| ConfigAdditions.TranslateNormalized | internal/agentinstall/config.go:137-302 | the translation is that of some order of the keys, each visited once |
| ConfigAdditions.FoldFits | internal/agentinstall/config.go:137-302 | in whatever order the keys come, the loop computes what each agent's keys stand for, in closed form |
| ConfigAdditions.OrderIrrelevant | internal/agentinstall/config.go:137-302 | two orders give the same translation up to the order of claude's deny list and of the notes, for opencode provided no pattern is both allowed and denied |
| ConfigAdditions.InconsistentOrdersDiffer | internal/agentinstall/config.go:137-302 | with such a pattern two orders disagree |
| ConfigAdditions.FilterForbidden | internal/agentinstall/config.go:65-83 | the copy keeps exactly the keys not forbidden and lists the others once each |
| ConfigAdditions.BuildAdditions | internal/agentinstall/config.go:308-349 | additions, capability, policy and notes are those of the filtered native layer with a translation merged over it, in some order of the keys |
| ConfigResults.BuiltIs | internal/agentinstall/config.go:308-349 | what that is for each agent, in the keys and values of its configuration file, whatever the order: claude's permissions with mode, allow and deny, codex's approval policy and command policy, opencode's tools and bash tables, everything else of the native layer but the forbidden keys; and when it is best effort or unsupported |
| ConfigResults.ReasonsAre | internal/agentinstall/config.go:137-349 | exactly the notes taken: of forbidden, unknown and unmapped keys, of postures not recognized or limited |
| ConfigAdditions.ToStringsIs | internal/agentinstall/config.go:87-105 | a string counts as one, of a list the strings in their order, anything else for none |
| ConfigAdditions.ForbiddenComesFromNormalized | internal/agentinstall/config.go:308-349 | the value at a forbidden key depends on the normalized keys alone, and model is never written |
| ConfigAdditions.UnsupportedIffNothing | internal/agentinstall/config.go:338-349 | the capability is unsupported exactly if there are no additions and no command policy |
| RevocationFeed.ServePage | internal/authsvc/revocation.go:35-90 | a page is a prefix of the entries after since, as long as fits; its encoding is at most 3 MiB, so the final size check cannot fire; an error exactly if the first entry does not fit alone |
| RevocationFeed.EncodeGrows | internal/authsvc/revocation.go:56-79 | the running count is exact for a page with nothing left out |
| RevocationFeed.CursorSkipsPage | internal/authsvc/revocation.go:35-90 | moving the cursor to a page's last number takes exactly that page off what is to come |
| RevocationFeed.ParsePageInt | internal/authsvc/revocation.go:92-104 | what is accepted is the default when nothing is given, else one number within the range |
| RevocationFeed.QueryIsReadBack | internal/authsvc/revocation.go:92-104 | the number a consumer writes into its query is read as that number exactly if it is in range |
| RevocationFeed.ParsePageIntMeans | internal/authsvc/revocation.go:92-104 | exactly the texts accepted and their numbers: an optional sign, leading zeros, decimal digits, within the range |
| RevocationFeed.FitsAloneMeans | internal/authsvc/revocation.go:68-75 | an entry fits alone exactly if its page is at most 3 MiB |
| FeedConsumers.EachNumberOnce | internal/authsvc/store/revocations.go:151-192 | while notices are appended, merged and pruned and other consumers poll, also between a page's being served and its being applied, and although pages get lost, a consumer applies numbers in strictly increasing order, and of those up to its checkpoint exactly the ones not gone from the feed before they were put on a page for it |
| FeedConsumers.OneOfTwoIsMissed | internal/authsvc/store/revocations.go:98-132 | numbers do go missing: of two logouts everywhere between two polls the consumer is given the one with the later cutoff, and misses the other |
| FeedConsumers.CaughtUpConsumerDenies | internal/cp/auth/revocation.go:29-111 | a consumer whose last poll came to the end turns away both tokens of every revoked row until they expire, whatever notices it never saw, if no logout everywhere let a row slip |
| FeedConsumers.KnownOrToCome | internal/cp/auth/revocation.go:81-102 | whatever the feed denies, a consumer denies already or is still to be given |
| FeedConsumers.NoticesOnlyShrink | internal/authsvc/store/revocations.go:98-163 | under its own number a stored notice never grows: compaction moves tokens to a newer number only |
| FeedConsumers.EveryPageIsValid | internal/cp/auth/revocation.go:113-135 | in every reachable state every page that can be served passes the consumer's checks |
| FeedConsumers.AbsorbMeans | internal/cp/auth/revocation.go:81-102 | after a page exactly the unexpired old and new tokens are known, and for each account the latest cutoff |
| FeedConsumers.ValidPageMeans | internal/cp/auth/revocation.go:113-135 | what is demanded of each entry, after the number before it |
| FeedConsumers.ServeMeans | internal/authsvc/store/revocations.go:151-192 | a request prunes and is given the first notices beyond the checkpoint; what is beyond it and gone is missed |
| FeedConsumers.ApplyMeans | internal/cp/auth/revocation.go:49-111 | a page that arrives teaches what it says, and its numbers have been received |
| FeedConsumers.OthersMean | internal/authsvc/store/revocations.go:98-163 | nothing else touches consumer or page; what the feed loses beyond the last number applied or under way is missed, and so is what it has lost of a page that does not arrive |
| FeedPolling.ServeRevocations | internal/authsvc/revocation.go:35-90 | on the store: prune, then a prefix of what is left after since, and whether there is more |
| FeedPolling.Registry.ApplyPage | internal/cp/auth/revocation.go:49-111 | a page is applied whole, exactly if every entry is valid: expired tokens go, each id keeps its latest expiry, each account its latest cutoff |
| FeedPolling.Registry.IsRevoked | internal/cp/auth/revocation.go:29-37 | by token until it expires, or by the account's cutoff |
| FeedPolling.Poller.PollOnce | internal/cp/auth/feedpoll.go:100-118 | polling a store that prunes before each page terminates, and succeeds unless it is stuck at a notice ahead that does not fit a page alone or is not acceptable, so always if every notice is deliverable; then nothing is beyond the checkpoint; every notice up to it has been given once and in order, and its denials are known |
| FeedPolling.ReachableIsDeliverable | internal/authsvc/revocation.go:35-90 | every reachable feed meets the polling methods' demands, and is deliverable if each of its notices fits a page alone, however much of it has expired |
| Pop.EncodeSignature | internal/client/signer.go:98-101 | right-aligning r and s in 64 bytes: each half denotes its number, for all r and s below 2^256 |
| Pop.SignatureRoundTrip | internal/authsvc/pop.go:83-90 | splitting at 32 recovers both numbers, and a signature encodes one pair only |
| Pop.MessageInjective | internal/authsvc/pop.go:73-83 | one message stands for one token hash, timestamp and nonce |
| Pop.SignRefreshPoP | cmd/spawnctl/authstate.go:212-240 | what the client builds verifies exactly within 90 seconds of its timestamp |
| Pop.ProofBindsToken | internal/authsvc/pop.go:54-98 | an accepted proof was signed for this very token hash, timestamp and nonce, if the key verifies only what its owner signed |
| Pop.AcceptedIff | internal/authsvc/pop.go:54-98 | exactly the proofs accepted: 64 bytes of signature, 16 of nonce, a timestamp within 90 seconds, and a key that verifies the message |
| Pop.MessageLayout | internal/authsvc/pop.go:73-83 | where purpose, hash, timestamp and nonce stand in the message |
| ManagedIndex.Index.Write | internal/agentinstall/managed.go:131-159 | the loop over the position map computes the upsert of the batch |
| ManagedIndex.Index.Put | internal/agentinstall/managed.go:150-159 | one upsert, with the position map agreeing with the array before and after |
| ManagedIndex.UpsertAllMeans | internal/agentinstall/managed.go:143-159 | entries keep position and key, each is the batch's last word on its key or what it was, and new keys follow in first-seen order |
| ManagedIndex.LastWriteWins | internal/agentinstall/managed.go:143-159 | looking a key up gives the batch's last entry for it, else the old one |
| ManagedIndex.UntouchedStay | internal/agentinstall/managed.go:143-159 | an entry whose key the batch does not name stays where and what it was |
| ManagedIndex.KeysAgreeIff | internal/agentinstall/managed.go:143-145 | entries whose kind and agent do not hold the separator share a key exactly if they agree in kind, agent, name and native key, or in kind and agent while one's name is the other's up to a separator and the rest stands in its native key |
| ManagedIndex.KeysTellApart | internal/agentinstall/managed.go:143-145 | so without a separator in names too, keys tell entries apart |
| ManagedIndex.SeparatorConfuses | internal/agentinstall/managed.go:143-145 | with the separator in a name, different entries can share a key |
| ManagedIndex.UpsertKeepsUnique | internal/agentinstall/managed.go:143-159 | unique keys stay unique |
| ManagedIndex.UpsertTwice | internal/agentinstall/managed.go:143-159 | upserting the same batch twice is upserting it once |
| ApplyReport.ArtifactTargetsAgent | internal/agentinstall/dispatch.go:166-176 | an artifact targets an agent by name or by all-detected alone |
| ApplyReport.ApplyFiltered | internal/agentinstall/dispatch.go:103-161 | exactly the targeted artifacts are reported, in order, with one report more if the index could not be written; exactly the applied ones go into the index |
| ApplyReport.BundleRollups | internal/agentinstall/report.go:97-148 | the tallying loops compute one rollup per bundle in first-seen order |
| ApplyReport.BuildApplyReport | internal/agentinstall/report.go:32-87 | the verdict is bundle_failed exactly if a targeted bundle artifact's last report is not applied, ok exactly if besides every report is applied, warn otherwise; the exit codes are 3, 0 and 2 |
| ApplyReport.EveryTargetIsCounted | internal/agentinstall/report.go:97-148 | after an install, applied, failed and skipped add up to targeted in every bundle's rollup |
| ApplyReport.TallyBounds | internal/agentinstall/report.go:124-142 | when a tally's counts reach its targets, in both directions |
| ApplyReport.TallyCounts | internal/agentinstall/report.go:97-148 | each number of a rollup is the number of the artifacts it stands for |
| ApplyReport.EntryForIs | internal/agentinstall/report.go:110-115 | an artifact's status is that of the agent's last report of it |
| ApplyReport.BundleOfIs | internal/agentinstall/report.go:41-53 | a report is tagged with the bundle of the last artifact of its kind and name that has one |
| ApplyReport.BundlesInOrder | internal/agentinstall/report.go:98-108 | the rollups come in the order in which the manifest first names their bundles |
| ApplyReport.ReportsAre | internal/agentinstall/dispatch.go:103-161 | the install reports each targeted artifact at its place, with the status its agent and fate give it |
| ApplyReport.BrokenIff | internal/agentinstall/report.go:65-71 | a rollup falls short exactly if an artifact of the bundle was not applied |
| Frontmatter.FrontParts | internal/agentinstall/frontmatter.go:127-154 | a front found splits the file: opening line, yaml, closing delimiter, line end and body make up the file again |
| Frontmatter.BodyIsSuffix | internal/agentinstall/frontmatter.go:140-153 | the body is a suffix of the file |
| Frontmatter.SplitMeans | internal/agentinstall/frontmatter.go:127-154 | when a frontmatter is found and which: exactly a file that is an opening line ending in LF or CRLF, the yaml, the first line after it that begins with three dashes and nothing more, and the body |
| Frontmatter.InjectMeans | internal/agentinstall/provenance.go:56-78 | where the banner goes: before the body unless that holds the marker, at the top of a file that does not open a frontmatter, and nowhere in one that is not closed properly or without a source |
| Frontmatter.ParensAre | internal/agentinstall/provenance.go:33-45 | the parenthesis of the banner names of reference and directory those that are given |
| Frontmatter.InjectIdempotent | internal/agentinstall/provenance.go:56-78 | injecting twice is injecting once, for every file, even one the first injection broke |
| Frontmatter.ResplitIff | internal/agentinstall/provenance.go:76-78 | splitting the result gives the same frontmatter and a body of banner, newline and old body exactly if the closing delimiter's line ended in a newline; otherwise it no longer splits |
| Text.IndexIsFirst | internal/agentinstall/frontmatter.go:140-143 | nothing is found before the place the search reports |
| Text.ContainsMeans | internal/acpmux/acpmux.go:816-820 | a search succeeds exactly if the text occurs |

## Left out

Assumptions about the surroundings:

- Upstream agent: replies once to a request it has read, and emits a turn's updates between reading its prompt and
  replying to it (the guards of UpNote and UpReply in TurnSerializer). A prompt is accepted in the order in which
  the mutex sees it.
- Store: transactions are atomic, serializable and roll back on error; its operations are modelled from
  internal/authsvc/store, and a lost connection only through the failure outcomes of each step.
- GitHub: a refresh token is good once, and its answer may be lost or the token refused at any time.
- Random identifiers, token hashes, UUIDs and GitHub's access tokens do not repeat.
- Time is an integer that never decreases, the same for every process; a reading may be arbitrarily old when it is used.
- Emitters report an artifact under its own kind and name, as the report's correlation presumes.

Not modelled:

- Multiplexer I/O: JSON encoding, the 64-slot channel in front of the agent's pipe (one FIFO stands for both),
  handshake, cancel and mode-switch payloads, and frames written outside the replay log (initialize and session
  replies, permission broadcasts), for which the code promises no order against replayed frames.
- Integer widths: sequence numbers, ids, versions and times are unbounded, except the 64-bit range of ids in Codec
  and of timestamps in Pop.
- Go's flow records are shared pointers; LinkService keeps them as map values, which their mutex makes
  indistinguishable. The redeem's copy is modelled.
- Concurrency inside the imperative classes: each of their methods is one critical section, or one call undisturbed;
  interleaving is proved on the state machines they are tied to.
- The loop of ReconcileLegacyNodeRevocations: its transaction is one step of NodeCrl.
- Link identity continuity: the peek and the upsert are not atomic, so confirm_switch is only a reason for a redeem
  to stop (RedeemDrop).
- The order in which a revocation lists its tokens, and the byte limit of a stored notice; the count limit is modelled.
- The node's durable copy of the feed and its poisoning: FeedPolling follows the control plane's registry in memory,
  which a restart empties.
- Deleting expired refresh rows, which the store offers and nothing calls.
- Account and user look-ups, token minting and signing, beyond their failing.
- HTTP handlers, cookies, CORS, Connect wiring, CLI commands and printing, which are plumbing around the state changes.
- Cryptography, X.509, PEM and protobuf, which are opaque; JSON, TOML, YAML and hujson patching, of which only decoded
  trees are modelled; sanitizeSkillMD rests on the YAML library.
- File writes: a file is replaced whole or left as it was.
- Apply without an agent filter, the configuration loader, catalogs, profiles and provenance entries' contents.
- time.Unix overflow for timestamps near the 64-bit limit in VerifyPoP.
- A poll whose request itself fails: FeedPolling follows polls that reach the store; in FeedConsumers a page may be lost.
- Fairness: it is proved that steps are possible, not that they are taken.
