# Verified models of the homelab's stateful protocols

Dafny 4.11 models of the programs in this repository that keep state across failures, restarts and
other processes: the VPN picker (a scorer and an agent), the hub's Notion grant, the hard-link
cleaner, the subtitle translator, the hub's client provisioning, and the pool forecast. Check all of
it with `dafny verify dfyconfig.toml`.

## What is modelled

| module | program | in one sentence |
|---|---|---|
| Ejections | vpn_picker.py | which measured servers the agents' verdicts remove, against a one-stage definition |
| Picker | vpn_picker.py | the two-file journal and ranking protocol under failed writes, kills and restarts |
| Publisher | agent.py | the one-worker verdict publisher, one step per locked block |
| Budget | agent.py | cooldown, rolling cap and escape slot on a pruned history, against the complete log |
| Watch | agent.py | which loss windows count against which tunnel session |
| Agent | agent.py | the candidate walk and one whole watch window, over any daemon answers and delays |
| Cache | agent.py | the ranking cache's lease |
| Notion | notion_grant.py | refresh-token rotation (section 6 and section 10.4 of RFC 6749) over a versioned Secret |
| Unlink | temp-redundant-name-unlink.py | the unlink loop on a quiet filesystem and on one that others change |
| Translate | bazarr-autotranslate/files/main.py | scanner and worker sharing one dictionary across awaits |
| Provision | local-clients.py | stage-then-append by compare-and-swap, any number of runs |
| Forecast | pool-capacity-forecast.py | the least-squares line and its crossings, over the reals |

`Wrappers`, `Numbers` and `Text` hold the result types, the real arithmetic and the string order they share.

Each class has the fields of the code's object and its methods run the code's branches in place. A
method's contract ties the new state to a function of the old one (`Next`, `Cycled`, `Refreshed`,
`Step`, `Calls`), and the lemmas are about that function, over every run. Where other programs act
between two calls of a method, a method named `Others` (or `Elapse`, for time) does anything they
could have done, so a contract holds for all of it.

Assumptions, all of them:

- Clocks never go backwards.
- A store write that raises has either been applied by then or never will be. A token request either
  rotates and delivers, delivers without rotating, or does nothing.
- The look at a library name and the unlink behind it are one step.
- Floats are reals. Names are ASCII, as the identity pattern demands, so lower-casing is ASCII.
- Rows handed to a score cycle satisfy the ranking's row rules, because the writer does not check
  them (`Picker.Admissible`). What happens otherwise is `Picker.PublishesUnless`, for names that are
  not unique and cycles that then publish nothing, and `Picker.InvalidRowsLoseTheBase`, for those
  that get as far as their journal.
- A score cycle whose ranking is not written after its journal measured the base behind the served
  ranking again, or did so in another second, or shares no row with it (`Picker.Admissible`). Stamps
  have a resolution of one second; `Picker.FailedRankingIsHarmlessExactlyIf` says that no less will do.
- A restarted switch budget answers for the switches its file stands for: all of them if the last
  save worked, which `Budget.SwitchBudget.Record` says, and otherwise those up to the last save that
  did (`Budget.FileStandsForItself`). Its caps hold over restarts that lose nothing still fresh.
- Staged tokens and client digests are changed by provisioning runs only.
- The agent's polling interval is positive and its waits are not negative (`Agent.ValidConfig`).

Inputs that stand for what the code reads from outside: whether a publication applied, probe results,
verdict files as already parsed, daemon answers, wall times, search results, and the tokens drawn.

## Where the code promises more than it keeps

Each of these has its exact condition and an input for which it fails.

- A score cycle that journals a base in the same second as the served ranking, and then fails to
  write its ranking, can make a restart recover the wrong base. A restart right behind it does so
  exactly when the new base could also have produced the old ranking and differs from the true one
  (`Picker.FailedRankingRecoversExactlyIf`, `Picker.SameSecondRecoversTheWrongBase`). Some later refresh
  leads a restart there exactly when the two differ and share a row
  (`Picker.FailedRankingIsHarmlessExactlyIf`, `Picker.RefreshCanMakeTheWrongBaseMatch`).
- The caps on trips forget a switch whose save failed, once the process restarts. A trip then keeps
  its cap exactly when the complete log has room for one more of its kind
  (`Budget.TripKeepsCapsIff`, `Budget.LostSaveForgetsATrip`).
- A switch history pruned at one day forgets a cooldown longer than a day. `allowed` equals the
  answer on the complete log at all later times exactly when the last cooldown is at most a day, or
  is over already, or the cap is not positive; the metrics do in the first two cases only; the
  escape always does (`Budget.PruningIsInvisibleIff`, `Budget.PruningIsInvisibleToMetricsIff`,
  `Budget.PruningNeverHidesAnEscape`, `Budget.LongCooldownIsForgotten`).
- Boot upgrades and escapes use the daily cap but are not held to it. A record keeps every day within
  the cap exactly when there is room at its moment, which only a trip through the front door is sure
  to have (`Budget.RecordKeepsCapIff`, `Budget.StepKeepsCapIff`, `Budget.UpgradesAreNotCapped`).
- A hub that dies with an unsaved token pair presents an old refresh token, unless one of three
  conditions holds (`Notion.RestartIsSafeIff`, `Notion.RestartCanReplayAnOldToken`). The program's own
  text says so too.
- An item that is dropped and wanted again during its own translation attempt gets the rounds of the
  attempt, not of its searches (`Translate.AttemptKeepsCountIff`, `Translate.OneSearchCanPassForThree`).
- Survivors of one name can all be ejected by one verdict. A score cycle then has nothing to publish
  and dies before its journal, exactly when every name is accused and there are no more names than
  the cap allows rows (`Ejections.KeptIsNonEmpty`, `Picker.PublishesUnless`,
  `Ejections.DuplicateNamesCanEmptyTheRanking`).

## Model

| member | source | states |
|---|---|---|
| Ejections.LoadActiveVerdicts | images/vpn-picker/vpn_picker.py:374-415 | one newest document per producer and server, all of them and only read ones, newest first |
| Ejections.ApplyEjections | images/vpn-picker/vpn_picker.py:418-456 | the kept rows are those the one-stage definition keeps; ejected and capped verdicts are the queue of accused survivors, cut at the cap |
| Ejections.QueuePrefixIsRejected | images/vpn-picker/vpn_picker.py:441-455 | sorting and cutting selects exactly the servers with fewer than the cap's number of accused survivors ahead of them |
| Ejections.KeptExactly | images/vpn-picker/vpn_picker.py:418-456 | a row is kept exactly when its server is not accused or enough accused servers have a newer verdict, or one of the same moment and an earlier name |
| Ejections.EjectionBounds | images/vpn-picker/vpn_picker.py:418-456 | a ranking never becomes empty, kept and ejected add up, and no spared server has a newer verdict than an ejected one, nor one of the same moment and an earlier name |
| Ejections.KeptIsNonEmpty | images/vpn-picker/vpn_picker.py:421-424 | nothing is left exactly when every name is accused and there are no more names than the cap; never with unique names, and then the smaller of the cap and the number of accused survivors is removed |
| Ejections.RejectedCount | images/vpn-picker/vpn_picker.py:441-455 | for all rows, the smaller of the cap and the number of accused names is rejected |
| Ejections.LimitIsAFloor | images/vpn-picker/vpn_picker.py:446-451 | the cap is the floor of the fraction, at most all but one, and nothing for a fraction that is no number or not positive |
| Ejections.KeptIgnoresOrderAndDuplicates | images/vpn-picker/vpn_picker.py:426-428 | order and repetition of verdicts cannot change the kept list |
| Ejections.MergingIsInvisible | images/vpn-picker/vpn_picker.py:374-415 | merging per producer first gives the same kept list as all valid documents at once |
| Ejections.NoVerdictKeepsEverything | images/vpn-picker/vpn_picker.py:916-924 | without verdicts the whole base is kept |
| Ejections.DuplicateNamesCanEmptyTheRanking | images/vpn-picker/vpn_picker.py:453-456 | the smallest input that meets the condition for an empty ranking: two rows of one accused name |
| Ejections.IsRankedSubset | images/vpn-picker/vpn_picker.py:626-640 | true exactly for an order-preserving subsequence of a uniquely named base |
| Ejections.KeptIsRankedSubset | images/vpn-picker/vpn_picker.py:453-456 | every ejection result passes the restart's subset test |
| Text.SameWhenLowered | images/vpn-picker/vpn_picker.py:408-455 | two names are one exactly when they differ at most in the case of letters |
| Text.AtMostIsLexicographic | images/vpn-picker/vpn_picker.py:441-444 | names are ordered by their first difference, a prefix first |
| Picker.ValidateRows | images/vpn-picker/vpn_picker.py:474-516 | accepts exactly non-empty lists of rows in range with unique names |
| Picker.Scorer.constructor | images/vpn-picker/vpn_picker.py:681-753 | a new process holds the readable ranking and the first journalled base that could have produced it |
| Picker.Scorer.LoadPersistedBase | images/vpn-picker/vpn_picker.py:643-676 | returns the first journalled base with the ranking's stamp that could have produced it, or none |
| Picker.Scorer.LoadExisting | images/vpn-picker/vpn_picker.py:718-753 | adopts the file's ranking and the recovered base, or neither when the ranking is unreadable |
| Picker.Scorer.RefreshEjections | images/vpn-picker/vpn_picker.py:916-946 | the whole new state for each publication outcome; reports a change exactly when there is one; when written, the base minus the current ejections under its stamp |
| Picker.Scorer.RunCycle | images/vpn-picker/vpn_picker.py:991-1055 | the whole new state for each outcome of the two writes, journal first; when published, the ranking and the payload are the measured rows minus the current ejections |
| Picker.EventKeepsConsistent | images/vpn-picker/vpn_picker.py:576-600 | every cycle, refresh, kill and restart keeps readers agreed and the journal honest and whole |
| Picker.JournalSurvivesEveryRun | images/vpn-picker/vpn_picker.py:576-600 | over every run the journal holds the exact base behind the ranking on disk, a restart recovers it under its stamp, and HTTP serves what the file holds |
| Picker.LostJournalNeverLies | images/vpn-picker/vpn_picker.py:643-676 | from a lost journal, recovery says nothing or the truth, and the first publishing cycle makes it whole, even if it is killed right after |
| Picker.GoodStarts | images/vpn-picker/vpn_picker.py:718-727 | an empty disk and an honest pair of files are consistent starts |
| Picker.FailedRankingRecoversExactlyIf | images/vpn-picker/vpn_picker.py:590-595 | exactly when a restart right behind a failed ranking write recovers the true base |
| Picker.RefreshedFailureRecoversExactlyIf | images/vpn-picker/vpn_picker.py:590-595 | exactly when a restart behind a later refresh does |
| Picker.FailedRankingIsHarmlessExactlyIf | images/vpn-picker/vpn_picker.py:590-595 | every later refresh leaves the true base recoverable exactly when the journalled base is the same, of another second, or shares no row with it |
| Picker.RefreshCanMakeTheWrongBaseMatch | images/vpn-picker/vpn_picker.py:665-668 | a failed cycle that a restart survives, and a refresh after which it no longer does |
| Picker.SameSecondRecoversTheWrongBase | images/vpn-picker/vpn_picker.py:665-668 | a cycle in the second of the served ranking after which a restart recovers the wrong base |
| Picker.PublishesUnless | images/vpn-picker/vpn_picker.py:997-1006 | a cycle that has measured and can write fails to publish exactly when every name is accused and there are no more names than the cap |
| Picker.InvalidRowsLoseTheBase | images/vpn-picker/vpn_picker.py:603-623 | a journal of rows that break the ranking's rules is unreadable, written ranking or not, and the ranking exactly if the kept rows break them |
| Picker.RefreshPublishesBaseMinusEjections | images/vpn-picker/vpn_picker.py:916-946 | a refresh that can write leaves the base minus current ejections under the old stamp in both places |
| Picker.CyclePublishesBaseMinusEjections | images/vpn-picker/vpn_picker.py:991-1055 | from any state, a cycle that can write leaves the measured rows minus the current ejections on disk and behind HTTP under its own stamp, and its base first in the journal |
| Picker.FailedCycleTouchesOnlyTheJournal | images/vpn-picker/vpn_picker.py:997-1037 | a cycle without rows or journal changes nothing, one without a ranking only the journal, which keeps the base in memory behind the new one |
| Picker.NothingElseIsTouched | images/vpn-picker/vpn_picker.py:916-946 | a refresh without a base or a write changes nothing, a restart changes no file, and a kill is a restart behind what was done |
| Picker.RefreshIsIdempotentAndRetried | images/vpn-picker/vpn_picker.py:930-937 | refreshing twice is refreshing once, and a failed refresh is made up by the next |
| Publisher.VerdictPublisher.Submit | images/airvpn-bluetit/agent.py:551-577 | accepts exactly before a stop with room or a known path and a startable thread, in place for a known path |
| Publisher.VerdictPublisher.ClaimNext | images/airvpn-bluetit/agent.py:579-592 | takes the oldest path, or ends the thread when stopping |
| Publisher.VerdictPublisher.BeginLog | images/airvpn-bluetit/agent.py:600-605 | starts the log, or ends the thread when stopping |
| Publisher.VerdictPublisher.EndLog | images/airvpn-bluetit/agent.py:619-623 | returns the worker to the top of its loop |
| Publisher.VerdictPublisher.ClaimStop | images/airvpn-bluetit/agent.py:649-652 | claims the stop and discards pending work in one step, and leaves the worker and storage as they are |
| Publisher.VerdictPublisher.TryReturnFromShutdown | images/airvpn-bluetit/agent.py:653-654 | shutdown returns exactly when no log is running |
| Publisher.RunKeepsInv | images/airvpn-bluetit/agent.py:515-654 | what every interleaving keeps |
| Publisher.EveryVerdictOnceOrSuperseded | images/airvpn-bluetit/agent.py:523-530 | before a stop, each accepted verdict is handed over at most once and is handed over, pending or superseded, and one handed over is with the writer or has been logged exactly once; pending is always bounded |
| Publisher.IdleStorageIsLatest | images/airvpn-bluetit/agent.py:523-530 | idle without failed writes, each path holds its last accepted verdict |
| Publisher.AcceptingErasesNothing | images/airvpn-bluetit/agent.py:525-530 | a refresh replaces only its own path, a new path goes last, and a verdict is refused exactly for its three causes |
| Publisher.WaitingPathMovesUp | images/airvpn-bluetit/agent.py:589-591 | a pending path moves up by one with each claim whatever is submitted |
| Publisher.ClaimedAfterExactlyKOthers | images/airvpn-bluetit/agent.py:589-591 | the claim after the k ahead of it takes the path with its newest verdict |
| Publisher.NothingStartsAfterStop | images/airvpn-bluetit/agent.py:636-654 | after a stop at most the write under way reaches storage, and no log starts |
| Publisher.NothingStartsFromTheStopOn | images/airvpn-bluetit/agent.py:636-654 | the stop itself sets the flag and empties the pending set at once, from any moment on, and then nothing starts |
| Publisher.ShutdownWaitsForTheLogOnly | images/airvpn-bluetit/agent.py:644-648 | shutdown never waits for storage, its wait ends with the running log and cannot come back |
| Budget.SwitchBudget.constructor | images/airvpn-bluetit/agent.py:693-718 | the fresh entries of any file, none if it is unreadable; they stand for every log the file stands for |
| Budget.FileStandsForItself | images/airvpn-bluetit/agent.py:701-714 | whatever saves were lost, a file stands for the switches in it |
| Budget.SwitchBudget.Snapshot | images/airvpn-bluetit/agent.py:739-766 | the metrics of what is fresh, which are those of the complete log for cooldowns of at most a day |
| Budget.SwitchBudget.Allowed | images/airvpn-bluetit/agent.py:768-778 | the answer on what is fresh, which is that on the complete log for cooldowns of at most a day |
| Budget.SwitchBudget.AllowedOrEscape | images/airvpn-bluetit/agent.py:780-815 | an escape exactly when refused and the escape rule holds on the complete log |
| Budget.SwitchBudget.Record | images/airvpn-bluetit/agent.py:817-827 | one entry more, pruned, and saved if saving works |
| Budget.PrunedHasSameFresh | images/airvpn-bluetit/agent.py:732-737 | pruning never changes the entries of the last day at any later time |
| Budget.MetricsCannotDriftFromEnforcement | images/airvpn-bluetit/agent.py:752-757 | on any history, allowed means no cooldown left and the cap not exhausted; both methods answer for the same fresh entries |
| Budget.UsageCounts | images/airvpn-bluetit/agent.py:739-766 | the metrics count the entries and escapes of the last 86400 seconds and the time until the last cooldown runs out |
| Budget.PermittedExactlyWhen | images/airvpn-bluetit/agent.py:768-778 | permitted exactly when the last cooldown has run out and fewer than the cap were recorded in the last day |
| Budget.EscapeOpensExactlyWhen | images/airvpn-bluetit/agent.py:780-815 | open exactly when the last switch is younger than a day and the window, no escape was recorded in a day, and the cap is used up or a full cooldown armed |
| Budget.PruningIsInvisibleIff | images/airvpn-bluetit/agent.py:732-778 | when `allowed` equals the complete log's answer for good |
| Budget.PruningIsInvisibleToMetricsIff | images/airvpn-bluetit/agent.py:732-766 | when the metrics equal the complete log's for good |
| Budget.PruningNeverHidesAnEscape | images/airvpn-bluetit/agent.py:780-815 | the escape opens on the pruned history exactly when it does on the complete log |
| Budget.LongCooldownIsForgotten | images/airvpn-bluetit/agent.py:732-778 | a cooldown of over a day that the complete log still enforces and the pruned history does not |
| Budget.RefusalEndsWithinADay | images/airvpn-bluetit/agent.py:768-778 | a day after the last switch nothing is refused, whatever its cooldown |
| Budget.NoDayExceedsTheCaps | images/airvpn-bluetit/agent.py:693-827 | every half-open day of a whole run, over restarts that lose nothing fresh, holds at most the cap of trip switches and one escape |
| Budget.SavesLoseNothing | images/airvpn-bluetit/agent.py:720-730 | a run whose saves all work loses nothing, however often it restarts |
| Budget.TripKeepsCapsIff | images/airvpn-bluetit/agent.py:768-827 | whatever was lost, a trip keeps its cap exactly when the complete log has room for one more of its kind |
| Budget.LostSaveForgetsATrip | images/airvpn-bluetit/agent.py:720-730 | a run with one failed save and a restart in which a day holds two trips under a cap of one |
| Budget.RecordKeepsCapIff | images/airvpn-bluetit/agent.py:776-778 | one more entry keeps every half-open day within the cap exactly when there is room at its moment |
| Budget.StepKeepsCapIff | images/airvpn-bluetit/agent.py:1582-1606 | in a run, whatever it has lost, a record passes the cap on all switches exactly without room; a trip through the front door of a history that stands for the log has room |
| Budget.UpgradesAreNotCapped | images/airvpn-bluetit/agent.py:1582-1606 | a legal run of two boot upgrades across a restart that passes the cap |
| Watch.CounterIsTail | images/airvpn-bluetit/agent.py:1755-1770 | the counter is the length of the bad tail modulo the required windows, below that number |
| Watch.TripsExactlyWhen | images/airvpn-bluetit/agent.py:1706-1770 | a trip exactly when a bad window completes the number, counted backwards on its own session |
| Watch.TripRestsOnEvidence | images/airvpn-bluetit/agent.py:1706-1770 | exactly the required bad windows of one session, with only neutral ones between |
| Watch.KindsExactlyWhen | images/airvpn-bluetit/agent.py:1695-1760 | which windows count: measured on one tunnel, too much loss inside it, and not as much on the way to the router |
| Watch.EvidenceIsUnspent | images/airvpn-bluetit/agent.py:1767-1770 | no window behind a trip has already brought one |
| Agent.Bluetit.Connect | images/airvpn-bluetit/agent.py:917-949 | one dial, ended by the first matching report or by the last poll that fits, with the time it can take |
| Agent.Agent.VerifyTunnel | images/airvpn-bluetit/agent.py:1474-1499 | one probe, passed exactly by a measured loss within the limit |
| Agent.Agent.Finish | images/airvpn-bluetit/agent.py:1532-1549 | counters cleared and exactly one budget entry of the right kind |
| Agent.Agent.FallBack | images/airvpn-bluetit/agent.py:1448-1472 | one quick dial, verified by traffic, and the cooldown it earns |
| Agent.Agent.TryCandidate | images/airvpn-bluetit/agent.py:1416-1441 | the attempts at one candidate, each in turn and in time |
| Agent.Agent.WalkCandidates | images/airvpn-bluetit/agent.py:1415-1443 | candidates in ranked order until one holds, time is up, or none is left |
| Agent.Agent.Switch | images/airvpn-bluetit/agent.py:1381-1446 | the exact course of a switch, its end in bounded time, and exactly one budget entry for how it ended |
| Agent.Agent.CountWindow | images/airvpn-bluetit/agent.py:1706-1770 | the counter and the trip are those of the window's kind |
| Agent.Agent.WatchOnce | images/airvpn-bluetit/agent.py:1682-1791 | a trip accuses, asks the budget, and switches exactly if allowed or escaping |
| Agent.TurnsAreUsedUp | images/airvpn-bluetit/agent.py:1416-1441 | a walk has at most attempts times names attempts |
| Agent.WalkIsSafe | images/airvpn-bluetit/agent.py:1381-1446 | order, deadline, dial bound and no redial, for every walk there can be |
| Agent.DialsAreSeparated | images/airvpn-bluetit/agent.py:1413-1437 | a disconnect between a reported connection and the next dial; quick is the last dial |
| Agent.WalkLeavesTheServer | images/airvpn-bluetit/agent.py:315-327 | a degradation walk never dials the server it leaves, follows the ranking from its top without passing over a place, and dials at most a band of names |
| Agent.CandidatesFollowTheRanking | images/airvpn-bluetit/agent.py:315-327 | the candidates are exactly the places within the band that are not the excluded server, in ranked order |
| Agent.WalkFollowsTheRanking | images/airvpn-bluetit/agent.py:1415-1443 | the servers a walk dials go down the ranking in its order, none before all above it have been dialed |
| Agent.NoCandidateIsGivenUpEarly | images/airvpn-bluetit/agent.py:1415-1443 | a walk that comes to quick with time left has dialed every candidate its full number of times, or fewer with a connection over which nothing passed |
| Agent.ArmedByTheLastCall | images/airvpn-bluetit/agent.py:1448-1549 | the cooldown a walk arms is read off its last call: traffic, a wrong device, or neither |
| Agent.QuickStartsInTime | images/airvpn-bluetit/agent.py:1381-1446 | how late quick can be dialed, in daemon calls, probes and pauses |
| Cache.RankingCache.Adopt | images/airvpn-bluetit/agent.py:1222-1228 | memory becomes the document, and the file with it unless it cannot be written |
| Cache.RankingCache.LoadCache | images/airvpn-bluetit/agent.py:1299-1342 | the file's document if it is fresh now, otherwise nothing and both copies gone |
| Cache.RankingCache.CachedRanking | images/airvpn-bluetit/agent.py:1344-1366 | the same from memory, or from the file when memory is empty |
| Cache.LeaseRunsOnce | images/airvpn-bluetit/agent.py:269-300 | a document that was fresh is so exactly to generated_at plus ttl and never again |
| Cache.FreshExactlyWhen | images/airvpn-bluetit/agent.py:269-300 | fresh exactly when well formed, with rows, a lease of at most 2100 s, at most 300 s in the future and inside the lease |
| Cache.CacheServesTheLastAdoption | images/airvpn-bluetit/agent.py:1222-1366 | from any file, over every interleaving of saved adoptions, reads, loads and restarts, readers get the last adopted document, or before that the one found fresh, exactly while its own lease runs, and memory when present equals the file |
| Cache.AdoptionLastsItsLease | images/airvpn-bluetit/agent.py:1330-1340 | an adopted document is served until its own generated_at plus ttl or a later adoption |
| Cache.NothingIsServedPastItsLease | images/airvpn-bluetit/agent.py:1330-1340 | whichever saves fail, readers get only documents found or adopted, inside their own lease |
| Cache.FileHoldsTheLastSaved | images/airvpn-bluetit/agent.py:1222-1366 | whichever saves fail, the file holds the last document that reached it unless removed since, and a restarted process serves exactly that inside its lease |
| Cache.MemoryServesUnsaved | images/airvpn-bluetit/agent.py:1222-1228 | while its process lives, an unsaved document is served exactly to the end of its lease |
| Notion.Grant.AccessToken | 2-k3s/23.mcp-hub/files/notion_grant.py:123-139 | keeps the invariant under any interference, never yields the token rejected last, yields a cached or stored token without a refresh exactly when it was looked at more than 300 s before its own expiry, retries an unsaved pair that is due, and writes a refreshed one |
| Notion.Grant.Flush | 2-k3s/23.mcp-hub/files/notion_grant.py:109-121 | looks and writes an unsaved pair exactly when 30 s have passed since the last try, and drops it exactly when that worked or a new consent has replaced the grant; presents nothing |
| Notion.Grant.Refresh | 2-k3s/23.mcp-hub/files/notion_grant.py:141-166 | presents exactly the newest token, yields the answered one with the answered lifetime, writes that pair at the version read and keeps it as unsaved exactly if the write raised; says which errors present nothing |
| Notion.Grant.Invalidate | 2-k3s/23.mcp-hub/files/notion_grant.py:104-107 | marks the cached token as rejected |
| Notion.WriteKeepsGood | 2-k3s/23.mcp-hub/files/notion_grant.py:115-121 | a write that lands, fails or lands and raises keeps the newest token known and replaces no other consent |
| Notion.PostKeepsGood | 2-k3s/23.mcp-hub/files/notion_grant.py:149-159 | presenting the newest token and keeping the answer as unsaved keeps the newest token known |
| Notion.RestartIsSafeIff | 2-k3s/23.mcp-hub/files/notion_grant.py:9-16 | exactly when a process that dies leaves the invariant, and exactly when its successor presents the newest token next |
| Notion.RestartCanReplayAnOldToken | 2-k3s/23.mcp-hub/files/notion_grant.py:9-16 | a rotation, a write that does not apply and a restart, after which an old token is presented |
| Notion.AnyLife | 2-k3s/23.mcp-hub/files/notion_grant.py:92-166 | over a whole life, with every restart that does no harm, only newest tokens are presented and no write crosses a consent |
| Unlink.Classify | 0-truenas/scripts/temp-redundant-name-unlink.py:191-220 | three lists, each complete and exact |
| Unlink.Cleaner.Counterpart | 0-truenas/scripts/temp-redundant-name-unlink.py:223-238 | a library name of this very inode with another link, or none exists |
| Unlink.Cleaner.UnlinkTempName | 0-truenas/scripts/temp-redundant-name-unlink.py:241-257 | removes the name exactly if it can be looked at and still is the inode |
| Unlink.Cleaner.ProcessRow | 0-truenas/scripts/temp-redundant-name-unlink.py:387-404 | every unlink leaves a live name outside temp; undisturbed, all temp names of the inode go |
| Unlink.Cleaner.Clean | 0-truenas/scripts/temp-redundant-name-unlink.py:343-412 | harmless under any interference, and only names that are temp or begin with temp and a slash go; undisturbed it ends with exactly the redundant names gone |
| Unlink.CleanedIsDone | 0-truenas/scripts/temp-redundant-name-unlink.py:5-25 | afterwards nothing is redundant, the names gone are exactly those under root and temp with a library name and no torrent, and every inode is still there |
| Unlink.UnderExactly | 0-truenas/scripts/temp-redundant-name-unlink.py:153-159 | under a directory exactly when the components begin with its own, so no sibling that merely begins alike is; trailing slashes change nothing |
| Unlink.ComponentsAre | 0-truenas/scripts/temp-redundant-name-unlink.py:153-159 | the components hold no slash and, joined by slashes, make up the path |
| Translate.Tracker.DropUnwanted | 2-k3s/08.servarr/bazarr-autotranslate/files/main.py:215-223 | drops this kind's unwanted keys and no others |
| Translate.Tracker.ConsiderCandidate | 2-k3s/08.servarr/bazarr-autotranslate/files/main.py:229-264 | one candidate up to its awaited search |
| Translate.Tracker.SearchEnded | 2-k3s/08.servarr/bazarr-autotranslate/files/main.py:243-264 | counts a successful search under the scan's time |
| Translate.Tracker.PickReady | 2-k3s/08.servarr/bazarr-autotranslate/files/main.py:310-314 | the smallest ready item, or there is none |
| Translate.Tracker.TrySend | 2-k3s/08.servarr/bazarr-autotranslate/files/main.py:319-327 | sends only what is still ready |
| Translate.Tracker.AttemptEnded | 2-k3s/08.servarr/bazarr-autotranslate/files/main.py:346-349 | records the attempt if the key is still there |
| Translate.SearchesComeFirst | 2-k3s/08.servarr/bazarr-autotranslate/files/main.py:238-264 | in every interleaving: required rounds first, jobs set, successful searches spaced for every key, and rounds equal to them for every key still searched and every other that no late attempt has written over |
| Translate.ConsideredExactly | 2-k3s/08.servarr/bazarr-autotranslate/files/main.py:229-264 | of all reachable states: searched exactly when searches are lacking and the last is the spacing ago, made ready exactly when none is lacking and it does not rest |
| Translate.SentAgainOnlyAfterGrace | 2-k3s/08.servarr/bazarr-autotranslate/files/main.py:232-236 | a key wanted throughout from its attempt on is sent again only after the grace period, whatever became of earlier attempts |
| Translate.ReadyAgainAfterGrace | 2-k3s/08.servarr/bazarr-autotranslate/files/main.py:232-264 | in every interleaving, a scan makes a translated item that is still wanted ready again, with its rounds and the new job, exactly when the grace period is over or it had become ready before |
| Translate.WorkerNeverAddsKeys | 2-k3s/08.servarr/bazarr-autotranslate/files/main.py:346-349 | the worker never brings a dropped key back |
| Translate.AttemptKeepsCountIff | 2-k3s/08.servarr/bazarr-autotranslate/files/main.py:346-349 | exactly when the end of an attempt leaves the rounds of its item honest; it touches no other |
| Translate.OneSearchCanPassForThree | 2-k3s/08.servarr/bazarr-autotranslate/files/main.py:346-349 | a run in which it does not |
| Provision.ProvisionMachine | 2-k3s/23.mcp-hub/tools/local-clients.py:69-102 | makes exactly the calls of its course whatever the others do between them, and a normal return leaves the digest of the staged token granted |
| Provision.Cluster.Create | 2-k3s/23.mcp-hub/tools/local-clients.py:76-80 | stages a token only where there is none, and may do so although it reports a failure |
| Provision.Cluster.Patch | 2-k3s/23.mcp-hub/tools/local-clients.py:96-101 | replaces the client map only at the version it was read at, and may do so although it reports a failure |
| Provision.CallKeepsHolds | 2-k3s/23.mcp-hub/tools/local-clients.py:86-101 | no call of a run loses a grant or a token of another, and what the run knows stays so |
| Provision.NoGrantIsEverLost | 2-k3s/23.mcp-hub/tools/local-clients.py:69-102 | over every interleaving of any number of runs the map only grows, no digest changes, new digests match their staged tokens, runs that returned are granted, and runs of one machine agree on the token |
| Provision.NothingIsRefused | 2-k3s/23.mcp-hub/tools/local-clients.py:74-92 | where every grant has its token, that stays so and no run is refused for a missing token or a differing grant |
| Provision.RunsEnd | 2-k3s/23.mcp-hub/tools/local-clients.py:86-102 | a run is over after at most fourteen calls |
| Provision.GivesUpExactlyAtTheFifth | 2-k3s/23.mcp-hub/tools/local-clients.py:86-102 | a run refuses for contention exactly at its fifth failed patch, whatever the others do |
| Provision.AloneComesToItsOutcome | 2-k3s/23.mcp-hub/tools/local-clients.py:69-102 | undisturbed calls that all work end within five in a grant, exactly unless the machine has a grant without or against its token, which then stays as it is |
| Forecast.FitMinimisesSquaredError | 0-truenas/scripts/pool-capacity-forecast.py:75-88 | no line has a smaller squared error, in either branch |
| Forecast.FitIsUniqueUnlessOneMoment | 0-truenas/scripts/pool-capacity-forecast.py:75-88 | the minimiser is unique exactly when the samples are not all of one moment |
| Forecast.DenominatorSeparatesMoments | 0-truenas/scripts/pool-capacity-forecast.py:85-87 | the denominator is never negative and zero exactly for samples of one moment |
| Forecast.NormalEquations | 0-truenas/scripts/pool-capacity-forecast.py:85-88 | both branches solve the normal equations |
| Forecast.OneMomentFitsItsMean | 0-truenas/scripts/pool-capacity-forecast.py:85-86 | samples of one moment give a flat line at their mean |
| Forecast.GrowthIsPerDay | 0-truenas/scripts/pool-capacity-forecast.py:75-88 | the slope is in bytes per 86400 seconds |
| Forecast.CrossingIsTheOnlyMomentOnTheLine | 0-truenas/scripts/pool-capacity-forecast.py:91-95 | none exactly for a slope that is not positive, otherwise the one moment at which the line reaches the threshold |
| Forecast.CrossingIsInSeconds | 0-truenas/scripts/pool-capacity-forecast.py:91-95 | a line reaches what it grows to in n days after n times 86400 seconds |
| Forecast.CrossingsAreOrderedByThreshold | 0-truenas/scripts/pool-capacity-forecast.py:91-95 | crossing dates come in the order of their thresholds |

## Left out

- Picker.Scorer.RunCycle: the API call, the shortlist and the probes are inputs, and the fields kept only for metrics are not modelled, because nothing else reads them.
- Picker.Scorer.LoadPersistedBase: the size limit of the journal file is not modelled, because documents are values here.
- Picker.Scorer.RefreshEjections: documents are compared as values, so a file whose bytes merely are laid out differently counts as unchanged.
- Picker.ValidateRows: the patterns of names and addresses are not modelled beyond a name not being empty, because documents are already parsed.
- Cache.RankingCache.Discard: a file that cannot be removed is not modelled; it would be read and discarded again.
- Agent.Agent.Switch: the counters of switches by reason, which only metrics read, are not modelled.
- Agent.Agent.Finish: the counter of switches by reason, which only metrics read, is not modelled.
- Agent.Agent.WatchOnce: throughput and the loss gauges, which decide nothing, are not modelled; the verdict handed to the publisher is the returned `accused`, and its queueing is module Publisher.
- Notion.Grant.AccessToken: it may yield a token rejected before the last rejection, because two calls of `invalidate` in a row overwrite the mark.
- Unlink.Cleaner.UnlinkTempName: an unlink that raises is not modelled; it stops the run, and what was removed before stays harmless. The abort on newly broken torrents and the dry run end a run early and are not modelled.
- Unlink.Cleaner.Clean: a batch size of zero or less does nothing or leaves the last inodes; completeness is stated for a positive size.
- Provision.ProvisionMachine: token syntax and malformed Secrets are not modelled.
- Translate.Tracker.AttemptEnded: the polling of the remote job queue is one attempt with a start and an end; the recorded result, which nothing reads back, is not modelled.
- The reader thread of the agent, HTTP handlers, metrics text, logging, environment parsing and command-line tools.
- The remaining scripts of the repository, which validate input or provision external tools without state of their own to protect.
