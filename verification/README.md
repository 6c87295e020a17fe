# HomeDash hub: a verified model

HomeDash's hub places inference requests on a home's machines and on other
people's hubs, counts what they cost, keeps terminals and backups, and says
where a stack would fit.  This project models the parts of the hub where many
things happen at once, or where a fast form stands in for a simple one, and
proves what they keep.

| module | of the hub |
|---|---|
| `Answers` | what `tryPeer` and `proxy` write to a client, over a response writer |
| `Router`, `RouterOrder`, `Network` | `place` as a step system: any number of requests, any interleaving; the order it decides in; then many such hubs sending jobs to each other |
| `Conversation` | the conversation keys and the map of homes |
| `Lines`, `Meter` | the token meter on an answer stream |
| `SessionUsage` | the incremental scan of session files |
| `Admission`, `PeerUnderHub`, `Overrun`, `HubOverrun` | the hourly allowances of a peer and of the hub, what the hub's does to one peer, and the runs that overrun each |
| `Ceilings`, `Refusals` | the lock-free connection ceiling and the locked job ceiling, over leaving and joining spaces |
| `Framing` | header and body on one peer stream |
| `Sorting`, `Ranking` | the decayed record of a peer and the order peers are asked in |
| `Rollup`, `Totals`, `HourlyRows` | the hourly rollups of usage and metrics |
| `Trend`, `Burst`, `LeastSquares` | the slope of the free-space samples, burst removal, and what that slope is best at |
| `Placement`, `Verdicts`, `Metrics` | the placement of a stack, one host's verdict and score, and the query the samples come from |
| `Window` | the terminal's replay buffer and its subscribers |
| `Shell`, `Quote` | the command-line printer and, from sections 2.2 and 2.3 of the Shell Command Language in POSIX.1-2017, the shell that reads it back |
| `Walk`, `Restore`, `Staging` | the order files are visited in, the staged restore with a crash allowed between any two file operations, and a crash while it is being staged |

A concurrent component is a state, a step for every mutex section, statement or
file operation, and a run: a sequence of states any of whose steps may be anyone's.
What a clock, a database, a machine or a peer answers is a parameter of the step,
so a theorem about runs holds whatever they answer.  Where the hub keeps fields
under a mutex the model has a class whose methods are proved equal to those steps.
float64 is `real`; int64 is written out where it can wrap (the meter's sums, the
placement's requests).

## Where the code does not do what is said of it

Each of these is proved, with the exact condition under which the claim does hold.

- A rollup compares a row's time, text with milliseconds, to an hour's mark, text
  without.  In the first second of an hour the text sorts before the mark of its own
  hour, so the row is rolled up in that very hour and the rest of the hour is never
  read again (`HourlyRows.ExactPastFirstSeconds`, `Rollup.RolledTooEarly`,
  `Rollup.NeverReadAgain`).  Given the times rows may be stamped with, every run is
  exact if and only if none of them lies in the first second of an hour.
- "Averaged per mountpoint": a mount's total is divided by all readings of the hour,
  so it is the mount's average exactly when every reading has it, or its total is
  zero (`HourlyRows.MountAverage`).
- "Comes through undamped": the burst's own interval of the trend goes with it
  (`Burst.BurstDamps`), and a steady trend loses an interval of half the week in which
  the machine was silent (`Burst.SteadyTrendIsKept`).
- The fill projection is capped at a window of at most seven days and compared to
  thirty, so any negative slope rules a disk request out (`Placement.FitsExactly`);
  and with less than a day of history it says "full today" of any disk
  (`Placement.SaysToday`).
- The margins hold exactly while three (six) times the request in bytes is an int64
  (`Placement.MemoryMargin`, `Placement.DiskMargin`).
- "Answered every time is worth more than refused": a peer that only refused keeps the
  score 1.0 of an unknown peer, which no record exceeds
  (`Ranking.RefusalsOutrankAnswers`).
- The hourly allowances are counted before the row is written, so with K handlers in
  between at once allowance - 1 + K jobs can be accepted in an hour, and no more
  (`Admission.HourlyAllowance`, `PeerUnderHub.HubBoundsPeer`).  For the hub every run
  keeps it exactly when K is at most 1 or nothing is allowed at all
  (`HubOverrun.HubKeptExactly`), and handlers of as many peers, one each
  and within their own allowances, overrun it (`HubOverrun.HubIsOverrun`).  For a peer
  with an allowance L every run keeps it exactly when M is 0 or M - 1 + K is at most L,
  M the smaller of L and the hub's (`Overrun.PeerKeptExactly`); up to the hub's own
  allowance that is K at most 1.
- Add-then-check never lets too many through, but for every ceiling it can refuse a
  connection while none is let through (`Refusals.SpuriousRefusal`); it refuses exactly
  when those let through and those refused but still counted fill the ceiling
  (`Ceilings.RefusedWhenFull`).
- Leaving and joining again resets `serving` but not `total`, which is sound exactly
  when no job is at work (`Ceilings.RejoinIsSoundWhenIdle`), and the hub panics exactly
  when a job ends or is let in between the two (`Ceilings.PanicsExactlyAway`).  The shares
  of connections are sound after it exactly when none was held
  (`Ceilings.RejoinSharesAreSoundWhenIdle`).
- A session file "rewritten from scratch" is counted again from the top when it is found
  shorter than its stored offset; one that has reached it again is read on from there, and
  a line is never counted (`SessionUsage.UnnoticedRewrite`).
- A hub that dies while a restore is being staged applies the part that is there, which
  is right for all live files exactly when every byte of the last entry was written
  (`Staging.DiesWhileStaging`; for given live files, `Restore.PartialStage`).
- A terminal attached after its window ended gets a channel nothing closes
  (`Window.LateSubscriberWaits`).
- The last `return` of `pick` is dead (`Router.Pool.Pick`), and so is the guard against a
  zero denominator in `trend` (`Placement.TrendWindow`).

## Model

| member | source | states |
|---|---|---|
| Answers.Writer.TryPeer | hub/internal/pool/pool.go:720-756 | answers exactly on a yes with a first byte or an open stream, then with one status before the bytes; else the client is untouched and the peer is named; the home and the tokens are kept exactly on a yes |
| Answers.Writer.Proxy | hub/internal/pool/pool.go:670-700 | each of its three ways out writes its response; the home is remembered only once the machine answered, the tokens kept only below 400 |
| Answers.PeerAnswersOnce | hub/internal/pool/pool.go:712-756 | asking a peer writes exactly one response, a 200 before any byte and then a prefix of what the peer sent, exactly when a yes came with a first byte or an open stream; else nothing |
| Answers.ProxyAnswersOnce | hub/internal/pool/pool.go:670-700 | what `proxy` writes is exactly one response: the machine's own status and a prefix of what it sent, or a 502 with the error |
| Answers.CopyIsFaithful | hub/internal/pool/pool.go:843-860 | the client gets a prefix of what was read, and all of it when no write fails |
| Answers.CopyStopsAtFailure | hub/internal/pool/pool.go:843-860 | when a write fails, the client has everything read before it and nothing after |
| Router.Pool.TakeHost | hub/internal/pool/pool.go:650-658 | a machine is granted exactly when nobody has it, and is busy after; nothing else changes |
| Router.Pool.Release | hub/internal/pool/pool.go:661-667 | the machine is free, the channel sleepers hold is closed and a new open one is in place; the close cannot panic |
| Router.Pool.Enqueue | hub/internal/pool/pool.go:576-585 | a call is let in exactly when fewer than `depth` wait, and is then counted |
| Router.Pool.Dequeue | hub/internal/pool/pool.go:587-593 | the counter goes down by one unless it is zero |
| Router.Pool.Pick | hub/internal/pool/pool.go:598-637 | without a list of hosts nothing is tried; else, whatever others do to the pool between two rows, takes the first eligible machine idle at its turn, and says "busy" exactly when machines hold the model and all were serving at their turn, so the last return is dead |
| Router.Pool.Proxy | hub/internal/pool/pool.go:669-700 | on every way out the client has exactly one response and the machine is free |
| Router.MachinesAreExclusive | hub/internal/pool/pool.go:641-671 | in every run `busy` is exactly the set of machines held between take and release, each by one request |
| Router.QueueIsExact | hub/internal/pool/pool.go:489-494 | in every run the counter is the number of live calls that enqueued, each once however often it loops, and the positive test in dequeue never fails |
| Router.DepthIsKept | hub/internal/pool/pool.go:549-556 | with one depth setting no interleaving puts more calls in the queue than it allows |
| Router.CloseNeverFails | hub/internal/pool/pool.go:660-667 | whenever a release may happen its channel is open, and right after it every sleeping request can go on |
| Router.NoLostWakeup | hub/internal/pool/pool.go:495-570 | a request asleep on a channel that is still open: no release since it took the channel, and every machine busy at any moment of its look is still with the request that had it then |
| Router.SleeperWaitsForHolders | hub/internal/pool/pool.go:549-637 | while a request sleeps on an open channel there is an eligible machine in the fleet as its walk read it, every such machine is busy, and each is still with the request that held it when the walk came by |
| Router.UnplacedHasNoMachine | hub/internal/pool/pool.go:537-547 | the answer that nothing holds the model is given only when no machine of the fleet, as the walk read it, is eligible |
| Router.OneAnswer | hub/internal/pool/pool.go:476-571 | what a call of `place` has written is nothing or exactly one response, and one response when it is over unless its client left; after a peer that did not answer it is still nothing |
| Router.AtRest | hub/internal/pool/pool.go:490-494 | when all calls are over no machine is busy and the counter is zero |
| Router.OnlyPromptsCross | hub/internal/pool/pool.go:479-487 | a request that asks a peer came in unmarked, on a prompt path, with the space joined |
| Router.StepKeepsInv | hub/internal/pool/pool.go:476-571 | every step of every request keeps exclusion, the wake-up invariant, the exact queue and the answer count |
| RouterOrder.PeersBeforeQueue | hub/internal/pool/pool.go:522-536 | a request that came in joined, unmarked and on a prompt path reaches the queue or the 404 only when in that very pass, after the walk of the fleet had ended, the peers were asked and did not say yes |
| RouterOrder.HomeBeforeFleet | hub/internal/pool/pool.go:501-518 | the fleet is read only after the home was looked up in that pass, and tried when it is a machine, and asked without a yes when it is a peer and peers may be asked |
| RouterOrder.HomeIsTheOneTried | hub/internal/pool/pool.go:510-514 | the machine tried first is the one found as the home, and it is the request's exactly when it was idle |
| RouterOrder.HomeFollows | hub/internal/pool/pool.go:495-518 | what comes after the channel is the home; after a home machine its trial; after a home peer the question, if peers may be asked; else the fleet |
| RouterOrder.WalkTakesEachRow | hub/internal/pool/pool.go:607-632 | the walk is over the whole list from the front: a machine is tried exactly when Ollama is on it, it is online, not switched off and holds the model; taken exactly when idle at its turn; and it ends when no row is left |
| RouterOrder.WalkFollows | hub/internal/pool/pool.go:517-557 | after the walk come the peers when they may be asked, else the queue when a machine may serve the model, else the 404 |
| RouterOrder.PeerNoFollows | hub/internal/pool/pool.go:502-557 | after a peer that did not say yes comes the fleet when it was the home, and the queue or the 404, by the same test, when it was asked after the walk |
| RouterOrder.QueueFollows | hub/internal/pool/pool.go:549-570 | from the queue to the deadline unless it is full for a call not in it, from the deadline to sleep unless it has passed, from sleep back to the channel unless the client left |
| RouterOrder.WakesExactly | hub/internal/pool/pool.go:495-570 | a sleeper may wake by its client or the timer at any time, and by the channel exactly when a machine was released since the pass took it |
| RouterOrder.AnswerFollows | hub/internal/pool/pool.go:510-522 | a machine idle at its turn is asked next, then released, then the call ends, as it does after a yes of a peer and after the 404 |
| RouterOrder.QueueEndings | hub/internal/pool/pool.go:550-560 | a passed deadline and a full queue end the call for good with a 503 that says which; with room a call is in the queue |
| RouterOrder.OverForGood | hub/internal/pool/pool.go:495-570 | a call that is over writes nothing more |
| RouterOrder.AnswerStatuses | hub/internal/pool/pool.go:537-547 | 404 when nothing holds the model, the machine's own status or 502 from a machine, 200 from a peer that said yes |
| Network.OneHop | hub/internal/peers/peers.go:928-937 | in every run of any network of hubs the call that sent a job did not itself come from a peer or through a door |
| Network.NeverSentOn | hub/internal/fleet/fleet.go:511-520 | no step lets a call that came from a peer or a door send a job on, and the path that arrives is the sender's own and always a prompt |
| Network.NothingGoesOn | hub/internal/peers/peers.go:928-937 | whoever sends a job in any run was not brought in by an earlier crossing or through a door |
| Network.CrossesWhileAsking | hub/internal/peers/peers.go:762-790 | a job may go to another hub exactly when its own router waits for what a peer says |
| Network.StepKeepsInv | hub/internal/pool/pool.go:484-487 | every step of every hub keeps crossed and door calls without a route to the peers |
| Conversation.ConversationKeys | hub/internal/pool/pool.go:763-779 | the running hash gives the key of the whole history and of every proper prefix |
| Conversation.FedIsInjective | hub/internal/pool/pool.go:769-775 | what is fed to the hash determines the messages, because of the separator |
| Conversation.KeysAreHistories | hub/internal/pool/pool.go:760-779 | keys are equal exactly for equal histories |
| Conversation.EarlierTurnIsFound | hub/internal/pool/pool.go:760-779 | an earlier turn's key is among a turn's prefix keys exactly when the turn properly extends it |
| Conversation.Homes.Home | hub/internal/pool/pool.go:782-791 | the loop from the longest prefix down finds what `Lookup` says |
| Conversation.Homes.Remember | hub/internal/pool/pool.go:793-804 | the map after a placement, with entries over an hour old dropped when it has grown past ten thousand |
| Conversation.LookupIsLongest | hub/internal/pool/pool.go:782-791 | the entry found is that of the longest prefix less than two hours old |
| Conversation.RememberedExactly | hub/internal/pool/pool.go:793-804 | the new entry is in the map, and another is gone exactly when there were more than ten thousand and it is over an hour old |
| Conversation.HomesAreLatest | hub/internal/pool/pool.go:793-804 | over any history of turns the map holds only the latest placement of a history and keeps it at least an hour, however many there are |
| Conversation.HomeIsLongestTurn | hub/internal/pool/pool.go:763-804 | the home of a turn is where its longest remembered earlier turn last went, less than two hours ago; a longer one is passed over only when never placed or placed over an hour ago |
| Lines.SplitJoins | hub/internal/agent/usage.go:93-100 | cutting at newlines loses nothing |
| Lines.SplitAtNewline | hub/internal/agent/usage.go:76-86 | a newline is a clean cut: both sides split on their own |
| Meter.Meter.Push | hub/internal/pool/meter.go:39-52 | one byte keeps the buffer equal to the unfinished line, or empty when that is over the limit, and the counts equal to those of the finished lines |
| Meter.Meter.Read | hub/internal/pool/meter.go:37-57 | bytes and errors pass through unchanged; the buffer never exceeds the limit; after the end the counts are those of the whole stream |
| Meter.Meter.EndedWithLastReport | hub/internal/pool/meter.go:24-83 | after the end the counts are those of the last line of at most 2^20 bytes that names `_count` or `"usage"` and decodes to positive counts, or zero |
| Meter.Meter.Flush | hub/internal/pool/meter.go:59-83 | the counts become those the buffered line reports: its usage's prompt and completion when they are more than zero together, else its prompt and eval counts when those are; else they stay |
| Meter.Meter.Stream | hub/internal/pool/pool.go:843-860 | however the answer is cut into chunks, all of it is written on and the counts are those its last counting line reports; after a failed write, what was written is a prefix |
| Meter.LastCountsIsLast | hub/internal/pool/meter.go:24-29 | the batch form is the counts of the last line that carries any |
| Meter.NoCountsIsZero | hub/internal/pool/meter.go:85-87 | and zero when no line does |
| Meter.LastCountsAreReported | hub/internal/pool/meter.go:59-83 | the batch form, said of the decoded lines: which line decides, and which of its numbers are input and output |
| SessionUsage.ParseSessionUsage | hub/internal/agent/usage.go:93-132 | for any reading of a line, the loop returns the replies of all lines in order |
| SessionUsage.Store.HubUsageOffset | hub/internal/store/usage.go:47-54 | the stored offset, 0 for a file never scanned |
| SessionUsage.Store.RecordHubUsage | hub/internal/store/usage.go:59-76 | all rows and the new offset, in one commit |
| SessionUsage.Store.ScanSession | hub/internal/agent/usage.go:56-90 | a scan commits the replies of the complete lines past the offset and moves it just after the last newline, or does nothing |
| SessionUsage.StretchesJoin | hub/internal/agent/usage.go:76-90 | two stretches cut at a newline count as one |
| SessionUsage.IncrementalIsBatch | hub/internal/agent/usage.go:56-90 | after any appends, rewrites noticed by their length, scans and crashes the offset is 0 or just after a newline, and the rows recorded from the file since it was last counted from the top equal one pass over it up to there |
| SessionUsage.UnnoticedRewrite | hub/internal/agent/usage.go:70-79 | a run in which a rewritten file has its stored offset's length again: the scan sees the whole file and the line before the offset is never counted |
| SessionUsage.ScanCatchesUp | hub/internal/agent/usage.go:56-90 | after a scan that saw the whole file every complete line has been counted exactly once |
| SessionUsage.EveryReplyOnce | hub/internal/agent/usage.go:91-132 | with the program's own reading of a line, a whole scan leaves one row for each complete line that is an assistant's message with usage, in order, with its tokens, its time and its provider and model, and no other |
| Admission.HourlyAllowance | hub/internal/peers/peers.go:887-895 | in every run, in every window of an hour, the jobs accepted from a peer, or from all, are at most the allowance - 1 + the most handlers ever between count and record at once |
| Admission.AnyWindow | hub/internal/store/peers.go:147-161 | the same of one allowance: any hour's rows, not only the one that ends now |
| Admission.SerialIsExact | hub/internal/peers/peers.go:887-895 | served one at a time, whoever is refused at a count is refused with exactly the allowance accepted within the hour |
| Admission.AdmittedExactly | hub/internal/peers/peers.go:887-895 | in every run a handler gets past the peer's count, and past the hub's, exactly when fewer accepted jobs than the allowance, of that peer or of all, are stamped within the 3,600,000 ms before |
| Admission.RefusalsAreRecorded | hub/internal/peers/peers.go:887-916 | whoever is refused leaves one row that is not accepted, whoever is recorded one that is, with its peer and time, and nobody else leaves any |
| Overrun.AllowanceIsOverrun | hub/internal/peers/peers.go:887-916 | for every peer, M the smaller of its allowance and the hub's, and every k, a run with k of its handlers in between at once that accepts M - 1 + k of its jobs in one hour |
| Overrun.PeerKeptExactly | hub/internal/peers/peers.go:887-920 | a peer's allowance L is kept in every window of every run with at most k of its handlers in between at once if and only if M is 0 or M - 1 + k is at most L, M the smaller of L and the hub's; for L from 1 to the hub's, if and only if k is at most 1 |
| Overrun.WithinBound | hub/internal/peers/peers.go:887-895 | in every run and every hour a peer has at most M - 1 + K jobs accepted, M the smaller of both allowances |
| PeerUnderHub.HubBoundsPeer | hub/internal/peers/peers.go:892-895 | the hub's count bounds each single peer: at most the hub's allowance - 1 + K of its jobs in any hour, K the most of that peer's handlers in between at once |
| HubOverrun.HubIsOverrun | hub/internal/peers/peers.go:892-916 | for every hub allowance H, every k, and handlers of any peers whose own allowance is not 0, a run with k between the hub's count and the record at once that accepts H - 1 + k jobs in one hour, where a peer with one handler never has two in between |
| HubOverrun.HubKeptExactly | hub/internal/peers/peers.go:892-920 | the hub's allowance is kept in every window of every run with at most k handlers in between at once if and only if k is at most 1, or the hub's or every peer's allowance is 0 |
| Admission.StepKeepsHub | hub/internal/peers/peers.go:887-920 | every step of every handler keeps the books of each peer's allowance and of the hub's |
| Ceilings.Connections.AddConn | hub/internal/peers/services.go:88-89 | the counter goes up first and the connection is over exactly when it then exceeds the ceiling |
| Ceilings.Connections.TakeShare | hub/internal/peers/services.go:96-107 | a share is refused exactly when there is no map of shares or the peer has all of its own; else it is taken |
| Ceilings.Connections.GiveShare | hub/internal/peers/services.go:108-114 | the peer's count goes down by one, unless there is no map |
| Ceilings.CeilingHolds | hub/internal/peers/services.go:88-114 | at every moment of every interleaving, over any number of memberships, those let through are within the ceiling and the counter is exact though it may be above; within one membership each peer is within its share |
| Ceilings.RefusedWhenFull | hub/internal/peers/services.go:88-93 | a connection is refused exactly when those let through and those refused but still counted fill the ceiling |
| Ceilings.ServedWithinShare | hub/internal/peers/services.go:96-107 | within one membership a connection past the count is served exactly when its peer has fewer being served than its share |
| Refusals.SpuriousRefusal | hub/internal/peers/services.go:88-93 | for every ceiling and share of at least 1: a run that serves as many as the ceiling with the counter at twice that, and, when all of them are gone and none is let through, refuses the next |
| Ceilings.Jobs.Admit | hub/internal/peers/peers.go:896-905 | turned away exactly when its peer or the hub is at its limit; else counted in both, or a panic when the map is nil |
| Ceilings.Jobs.Done | hub/internal/peers/peers.go:906-911 | both counts go down by one, or a panic when the map is nil |
| Ceilings.BooksStayTrue | hub/internal/peers/peers.go:896-911 | within one membership `serving` and `total` are the jobs at work, per peer and in all, within both limits, and nothing panics |
| Ceilings.ServedBelowLimits | hub/internal/peers/peers.go:896-905 | within one membership a job is served exactly when its peer and the hub have fewer at work than they may, and else nothing changes |
| Ceilings.TotalStaysTrue | hub/internal/peers/peers.go:896-911 | over any number of memberships `total` is the number of jobs at work and within the ceiling |
| Ceilings.PanicsExactlyAway | hub/internal/peers/peers.go:474-479 | a run panics exactly when a job ends, or is let in, after a space was left and before the next is joined |
| Ceilings.TotalIsSum | hub/internal/peers/peers.go:896-911 | `total` is the sum of `serving` over the peers |
| Ceilings.RejoinIsSoundWhenIdle | hub/internal/peers/peers.go:474-479 | after leaving and joining again the books agree with the jobs at work exactly when there are none |
| Ceilings.RejoinOverAdmits | hub/internal/peers/peers.go:906-911 | otherwise a job that ends leaves its peer's count at -1 and the peer is let in beyond its limit |
| Ceilings.RejoinSharesAreSoundWhenIdle | hub/internal/peers/peers.go:383-392 | after leaving and joining again the shares agree with the connections exactly when none held one |
| Ceilings.RejoinSharesOverAdmit | hub/internal/peers/services.go:108-114 | otherwise a connection that ends leaves its peer's share at -1 and the peer is let in beyond its share |
| Framing.Fill | hub/internal/peers/peers.go:67-71 | reading on until the decoder decides loses no byte and reads no more than the limit |
| Framing.Decode | hub/internal/peers/peers.go:67-71 | whatever the reads return, the value is that of the whole limited stream and buffer plus stream is every byte after it |
| Framing.Header | hub/internal/peers/peers.go:63-77 | the same with the encoder's newline skipped, whether or not it was read ahead |
| Framing.HeaderRoundTrip | hub/internal/peers/peers.go:63-77 | a header within the limit and any body, even one that starts with a newline, come back exactly; a longer header never does |
| Framing.PromptArrives | hub/internal/peers/peers.go:857-926 | the prompt served is the prompt sent, exactly when header and body are within their limits, and never another |
| Framing.PromptExactly | hub/internal/peers/peers.go:857-926 | a prompt is served exactly when the stream begins with a header decided within 64 KiB whose size is 0 to 64 MiB and that many bytes follow it, and then it is those bytes |
| Framing.AnswerArrives | hub/internal/peers/peers.go:784-808 | the sender reads exactly what the peer's router wrote |
| Framing.Exchange | hub/internal/peers/peers.go:762-926 | one job over two streams, however their reads fall: prompt and answer arrive unchanged exactly when no check refuses, the header fits and the body is within its limit; else neither side has anything |
| Framing.HandleJob | hub/internal/peers/peers.go:846-926 | accepts exactly when no other check refuses and the stream holds a header, a size in range and that many bytes, and then with exactly that prompt |
| Framing.CodesExist | hub/internal/peers/peers.go:63-77 | what is assumed of the codes of job headers and of replies is met by a code for each |
| Sorting.FilterInPlace | hub/internal/peers/peers.go:723-729 | filtering into the slice that is being read gives the elements that pass, in order |
| Sorting.SortCands | hub/internal/peers/peers.go:1111-1117 | the insertion sort leaves the elements sorted, the same ones, and tied ones in their order |
| Sorting.SwapIsStable | hub/internal/peers/peers.go:1111-1117 | each swap keeps the elements and moves no tied ones past each other |
| Sorting.StableSortIsUnique | hub/internal/peers/peers.go:1111-1117 | a sorted stable rearrangement is unique, so the sort's result is determined |
| Ranking.WeightedMedian | hub/internal/store/peers.go:205-224 | under half the weight lies strictly below the result and at least half at or below it, and it is one of the times |
| Ranking.PeerRecord | hub/internal/store/peers.go:173-226 | the shares accepted and finished, the weighted median, and how many times there were |
| Ranking.SamplesAre | hub/internal/store/peers.go:190-203 | the median is over the times of the accepted jobs that have one, each with its job's weight |
| Ranking.ScoreInRange | hub/internal/peers/peers.go:732-743 | every score lies in (0, 1] and a peer without a record scores 1, so it is never ranked below one with a record |
| Ranking.ScoreTerms | hub/internal/peers/peers.go:736-742 | the score of a peer that accepted something is 0.5 of the share of its jobs accepted, 0.3 of the share of those finished, and 400 / (2000 + median ms) |
| Ranking.OnlyRefusalsScoreOne | hub/internal/peers/peers.go:736-742 | the record is used exactly when the peer accepted something; one that only refused scores 1 |
| Ranking.RefusalsOutrankAnswers | hub/internal/peers/peers.go:732-742 | a peer that answered everything never outranks one that refused everything, and ties only when its median time is 0 |
| Ranking.Place | hub/internal/peers/peers.go:706-760 | peers are asked in the stable order of the scores of their own records among approved fitting ones, one after another until one accepts |
| Ranking.RecordIsUnique | hub/internal/store/peers.go:173-226 | a peer's jobs have one record, median included |
| Ranking.BetterRecordFirst | hub/internal/peers/peers.go:730-744 | of two peers the one asked first has the better or equal record |
| Ranking.UnrecordedIsNeverBelow | hub/internal/peers/peers.go:702-705 | no peer without a record is asked after one that scores less than 1 |
| Ranking.BestWillingPeer | hub/internal/peers/peers.go:702-760 | only approved peers with a fitting offer are asked, and the one that takes the job scores no less than any other that would have |
| Ranking.AskedExactly | hub/internal/peers/peers.go:706-730 | who would be asked: exactly the approved peers heard of within three minutes, free, and with the model under its name or with `:latest` |
| Rollup.Store.ReadRows | hub/internal/store/hosts.go:457-492 | the loop fills exactly one accumulator a host and hour with the fold of the selected rows |
| Rollup.Store.Commit | hub/internal/store/hosts.go:493-517 | one hourly row an accumulator, inserted or replaced, and only raw rows past two days deleted |
| Rollup.CommitDropsTheOld | hub/internal/store/hosts.go:493-517 | a commit drops exactly the raw rows stamped more than 172,800,000 ms before, and of the hourly rows changes only those rolled |
| Rollup.SelectedGroup | hub/internal/store/hosts.go:458-463 | past first seconds, what is read for a host and hour is every row ever recorded in it when the hour is complete and not rolled, else none |
| Rollup.RolledHoursAreExact | hub/internal/store/hosts.go:454-518 | past first seconds, in every run a rolled hour is the fold of all rows ever recorded in it, exactly the hours before the mark that have rows are rolled, and none before it is over |
| Rollup.RollupIsComplete | hub/internal/store/hosts.go:454-518 | past first seconds, a rollup that goes through has rolled every row there was in the hours before the one it began in |
| Rollup.NeverRewritten | hub/internal/store/hosts.go:325-401 | in any run at all, no rolled hour is ever replaced, and a rollup in progress is about hours not rolled yet |
| Rollup.NothingIsLost | hub/internal/store/hosts.go:512-514 | past first seconds, every recorded row is still raw or its hour is rolled |
| Rollup.NeverReadAgain | hub/internal/store/hosts.go:458-463 | in any run at all, no row of a rolled hour is read again, whether it was rolled with it or not |
| Rollup.RolledTooEarly | hub/internal/store/hosts.go:461-462 | a run that rolls an hour in its first second: the hourly row has the first row only, though a second follows |
| HourlyRows.ExactPastFirstSeconds | hub/internal/store/hosts.go:454-518 | in every run every hourly row holds the number of rows of its host and hour and the totals of their five fields, if and only if no row may be stamped in the first second of an hour |
| HourlyRows.UsageIsTotals | hub/internal/store/hosts.go:477-491 | the sums of rows are their number and the five totals |
| HourlyRows.AveragesAreExact | hub/internal/store/hosts.go:368-401 | past first seconds, in every run an hourly metrics row holds the averages of all rows ever recorded in its hour, memory truncated to whole bytes |
| HourlyRows.UsageIsOrderFree | hub/internal/store/hosts.go:463-492 | an hour's sums do not depend on the order of its rows |
| HourlyRows.UsageAddsUp | hub/internal/store/hosts.go:477-491 | the sums of two groups of rows are the sums of both together |
| HourlyRows.MountAverage | hub/internal/store/hosts.go:325-401 | a mount's hourly figure is the average of its readings exactly when every row of the hour reports it or they sum to zero |
| Trend.Lagrange | hub/internal/apps/placement.go:146-155 | numerator and denominator of the slope are sums over pairs of samples |
| Trend.DenominatorIsPositive | hub/internal/apps/placement.go:155-158 | the denominator is positive whenever the samples span any time |
| Trend.SlopeRises | hub/internal/apps/placement.go:146-159 | free space that never shrinks has slope at least 0, and above 0 when it grew |
| Trend.SlopeFalls | hub/internal/apps/placement.go:146-159 | free space that never grows has slope at most 0 |
| Trend.SlopeOfLine | hub/internal/apps/placement.go:146-159 | samples on a line have the line's slope |
| Trend.SlopeAdds | hub/internal/apps/placement.go:146-159 | the slope of a sum of series is the sum of their slopes |
| Trend.SlopeScales | hub/internal/apps/placement.go:146-159 | a series scaled and shifted has its slope scaled |
| LeastSquares.SlopeIsBest | hub/internal/apps/placement.go:145-159 | no line is closer to the samples, in the sum of squared distances, than the one with this slope through their centre, and no other is as close |
| LeastSquares.TrendIsClosest | hub/internal/apps/placement.go:117-160 | the trend of a week of metrics with enough history is the slope of that line, for the series with its burst taken out |
| Burst.FindWorst | hub/internal/apps/placement.go:175-180 | the first of the largest steps, or -1 when no step differs from zero |
| Burst.DropBurst | hub/internal/apps/placement.go:170-189 | everything from the burst on is shifted back by it when there is one, else the series is unchanged |
| Burst.DropKeepsSteps | hub/internal/apps/placement.go:162-169 | length, first sample and every step but the burst are kept, and that becomes no step |
| Burst.DropKeepsDirection | hub/internal/apps/placement.go:162-189 | a falling series stays falling and a rising one rising, so the slope keeps its sign |
| Burst.BurstDamps | hub/internal/apps/placement.go:165-169 | a trend under a burst comes through with its sign, no larger, and undamped exactly when it is 0 or the burst took no time |
| Burst.FlatButOneStep | hub/internal/apps/placement.go:162-169 | a series flat but for one step comes back flat, with slope 0 |
| Burst.SteadyTrendIsKept | hub/internal/apps/placement.go:168-169 | a line keeps its slope exactly when it is flat or no two neighbouring samples lie half the span apart |
| Placement.FindTrend | hub/internal/apps/placement.go:117-160 | the slope after burst removal and its window, or zero and zero without twelve samples over half a day |
| Placement.TrendWindow | hub/internal/apps/placement.go:141-159 | on a week of metrics a trend is given exactly when there is enough history, its window is half a day to seven days, and the zero guard is never taken |
| Placement.WindowIsSpan | hub/internal/apps/placement.go:117-160 | on a week of metrics a trend is given exactly when twelve rows can be read and two of them are half a day apart, and its window is the time from the first of them to the last |
| Placement.SampleAt | hub/internal/apps/placement.go:128-140 | each row that can be read is one sample, at its place among them, with its day and its free bytes |
| Placement.TrendSign | hub/internal/apps/placement.go:117-160 | shrinking space has no positive trend, growing space no negative one, and one jump in a flat series none |
| Placement.FillDays | hub/internal/apps/placement.go:191-204 | not negative, no longer than the window, zero exactly when nothing is free, otherwise the time the trend takes to use up the bytes, and cut to the window only when they last that long |
| Placement.FillSentence | hub/internal/apps/placement.go:206-216 | never a count of zero days, nor more than the window |
| Placement.SentenceIsTrue | hub/internal/apps/placement.go:206-216 | the days named are lost within the free bytes and no more days are, unless the window ends; the rate is the loss in whole MB |
| Placement.SaysToday | hub/internal/apps/placement.go:206-216 | "today" exactly when less than a day's loss is free or there is less than a day of history |
| Placement.FitsExactly | hub/internal/apps/placement.go:47-107 | on a week of metrics a host fits exactly when it is the gateway's, online, has Docker, GPU, cores and both margins, and is not filling at all if disk is wanted |
| Verdicts.FirstReason | hub/internal/apps/placement.go:53-84 | a host with something against it does not fit and is given the first reason, in the source's order, with its numbers |
| Verdicts.NoReason | hub/internal/apps/placement.go:85-107 | a host with nothing against it fits, and the line says what memory and disk it keeps, how fast its disk fills and whether its GPU is wanted |
| Verdicts.RootIsLast | hub/internal/apps/placement.go:62-67 | the free bytes are those of the last mount on "/", 0 without one |
| Verdicts.ScoreTerms | hub/internal/apps/placement.go:88-99 | the score of a fitting host: 0.4 of the share of its memory the stack leaves, 0.35 of the disk's, 0.15 of the cores', less 0.1 of the load a core and 0.2 for a falling trend |
| Verdicts.MemoryOrder | hub/internal/apps/placement.go:88-99 | of two fitting hosts that differ in memory alone the one with the larger share left scores higher, and only then |
| Verdicts.MoreMemory | hub/internal/apps/placement.go:88-99 | more memory, or less in use, scores higher |
| Verdicts.MoreAvailableMayScoreLess | hub/internal/apps/placement.go:88-99 | more bytes available alone need not: 96 GiB of 128 score less than 60 of 64 |
| Verdicts.MoreDisk | hub/internal/apps/placement.go:88-99 | more free bytes on the root mount score higher |
| Verdicts.MoreCores | hub/internal/apps/placement.go:88-99 | more cores score higher |
| Verdicts.MoreLoad | hub/internal/apps/placement.go:88-99 | more load scores lower |
| Verdicts.FallingCosts | hub/internal/apps/placement.go:94-99 | a falling trend costs a fitting host exactly 0.2, and nothing else about the trend does |
| Metrics.MetricsAreAWeek | hub/internal/store/hosts.go:403-413 | rows and hourly marks in text order from a week back give seconds that run forward and span at most seven days |
| Metrics.SweepSortsBeforeItsMark | hub/internal/store/hosts.go:405-413 | the text order is not that of the instants: a sweep in the second of an hour's mark sorts before it |
| Metrics.MarkIsText | hub/internal/store/hosts.go:461-462 | the rollups' test of a row against a mark is the order of their texts |
| Metrics.SweepsInOrder | hub/internal/store/hosts.go:403-413 | among sweeps the text order is that of the instants |
| Metrics.WeekExactly | hub/internal/store/hosts.go:405-413 | the query returns exactly the marks of the last seven days and the sweeps of all but the first second of them |
| Metrics.StoredTrendDecides | hub/internal/apps/placement.go:117-160 | with the metrics the query returns, a falling trend rules out every stack that wants disk and no other trend turns a host down |
| Placement.NotFilling | hub/internal/apps/placement.go:83-84 | a host whose space only grew, or jumped once, is never turned down as filling |
| Placement.MemoryMargin | hub/internal/apps/placement.go:68-80 | half as much again as the request is free on every host that passes, exactly when three times the request is an int64 |
| Placement.DiskMargin | hub/internal/apps/placement.go:70-82 | a fifth more of the disk likewise, exactly when six times the request is an int64 |
| Placement.Rank | hub/internal/apps/placement.go:108-113 | the same verdicts, sorted |
| Placement.Place | hub/internal/apps/placement.go:29-115 | an error of the store or the gateway, else the verdicts of all hosts, against the gateway's host when a cluster is named, sorted |
| Placement.FittingFirst | hub/internal/apps/placement.go:108-113 | no host that fits comes after one that does not, and among them no better score after a worse |
| Placement.OneLineEach | hub/internal/apps/placement.go:46-107 | every host has exactly one line, and it is its own verdict |
| Window.TailOfTail | hub/internal/agent/window.go:70-74 | cutting the buffer after every chunk keeps what cutting once would |
| Window.Window.Broadcast | hub/internal/agent/window.go:75-83 | every open channel with room gets the chunk and every full one is closed and dropped, exactly once |
| Window.Window.CloseAll | hub/internal/agent/window.go:86-92 | every channel still subscribed is closed, once |
| Window.Window.PumpChunk | hub/internal/agent/window.go:60-85 | one chunk into buffer and channels; contiguity of every subscriber is kept and nothing is sent to or closed twice |
| Window.Window.Finish | hub/internal/agent/window.go:84-100 | the last bytes of the output are handed on and all channels closed |
| Window.Window.Attach | hub/internal/agent/window.go:104-111 | the replay is the buffer, and the new subscriber starts exactly where it begins |
| Window.Window.Detach | hub/internal/agent/window.go:113-121 | the channel is closed if still subscribed, so never twice |
| Window.NoGapNoRepeat | hub/internal/agent/window.go:58-120 | for every subscriber in every run replay and received chunks are one stretch of the output, reaching the present with what is queued |
| Window.ReplayIsTheLast | hub/internal/agent/window.go:68-111 | in every run the buffer, and what a subscriber is given back, is the last 65536 bytes of the output, or all of it when there are no more; after the end nothing |
| Window.NeverPanics | hub/internal/agent/window.go:58-120 | in every run every subscribed channel is open, so nothing is sent on a closed channel or closed twice |
| Window.StepKeeps | hub/internal/agent/window.go:58-120 | every operation keeps contiguity, the buffer and closed-exactly-when-unsubscribed |
| Window.DroppedWhenFull | hub/internal/agent/window.go:75-83 | a subscriber is dropped exactly when its channel holds 256 chunks |
| Window.ClosedAtTheEnd | hub/internal/agent/window.go:86-92 | after the end every channel is closed but those attached later |
| Window.LateSubscriberWaits | hub/internal/agent/window.go:101-111 | a channel attached after the end stays open and empty in every continuation without its own Detach |
| Quote.Quote | hub/internal/remote/remote.go:235-243 | the loop prints a line that splits back into the words |
| Quote.QuoteRoundTrip | hub/internal/remote/remote.go:235-243 | every list of NUL-free words is read back exactly, each word literal |
| Quote.RoundTripsExactly | hub/internal/remote/remote.go:235-243 | and no list with a NUL in it is |
| Quote.InnerRoundTrip | hub/internal/agent/jobs.go:241 | the job's inner script splits, and its last command is `exec` with omp's arguments |
| Quote.InnerIs | hub/internal/agent/jobs.go:241 | the text of the job's inner script |
| Quote.NestedRoundTrip | hub/internal/agent/jobs.go:241-280 | both levels: the remote shell hands the inner script on unchanged, and the inner shell ends in `exec` with omp's arguments |
| Walk.ExtendedNameComesLater | hub/internal/backup/backup.go:244-259 | the walk never visits a journal before the database it belongs to |
| Walk.WalkExists | hub/internal/backup/backup.go:244-259 | every tree of files has a walk in that order, each file once |
| Restore.MoveKeepsGoal | hub/internal/backup/backup.go:258 | a rename changes what is live and what is staged, and not what the restore comes to |
| Restore.RestoredExactly | hub/internal/backup/backup.go:235-263 | what a restore comes to, file by file: staged files as staged, others as they were, except `-wal` and `-shm` beside a staged file named `.db` |
| Restore.StateDir.Apply | hub/internal/backup/backup.go:235-263 | an uninterrupted run leaves the staged files over the live ones, without stale journals, and nothing staged; without a staging directory nothing |
| Restore.RestoreSurvivesCrashes | hub/internal/backup/backup.go:235-263 | however often the hub dies and starts again, once the staging directory is gone the live files are those of an uninterrupted run |
| Restore.WorkMakesProgress | hub/cmd/homedash/main.go:100-105 | every operation makes progress and no crash brings a staged file back |
| Restore.NeverStuck | hub/cmd/homedash/main.go:100-105 | whatever tree was staged, until the staging directory is gone there is an operation to do |
| Restore.PartialStage | hub/internal/backup/backup.go:157-205 | applying an incomplete or half-written staged set gives the intended files exactly when what is there is right, the live ones already had the rest, and no journal is left over |
| Staging.DiesWhileStaging | hub/internal/backup/backup.go:157-205 | at any moment of any run of Stage, what is staged gives the intended restore for all live files exactly when every byte of the last entry is written |
| Staging.GoesOn | hub/internal/backup/backup.go:157-205 | in every run, until every entry is done the next file can be created, all its missing bytes written, and it closed |

## Left out

- Router: the channels are numbers, and what is in the `homes` map, the tags cache, and what machines and peers send are arbitrary answers of the step; the decision header and its reasons are not modelled.
- Router.OneAnswer: does not say how many bytes of the answer arrive, because a stream that breaks after its first byte is still the one response.
- Answers: a write that fails leaves nothing, where a connection may take part of it.
- Network: hubs are joined or not per request; who approves whom is in Ranking only.
- Conversation: SHA-256 is an injective parameter, and one reading of the clock serves a whole `home` or `remember` call.
- Meter.Meter.Read: trimming and JSON are parameters, of which only that nothing trims to nothing is used.
- SessionUsage: the JSON of a line is a parameter; a line without a usable timestamp is stamped `AtScan`, not a time.
- SessionUsage.IncrementalIsBatch: is about runs where each rewrite is found shorter than the stored offset, because the program can tell no other (SessionUsage.UnnoticedRewrite).
- Overrun.AllowanceIsOverrun: k is any number, while the swarm's resource limits (hub/internal/peers/peers.go:253-259) let one peer open no more than eight job streams at a time; those limits are not part of this model.
- Admission: settings are fixed during a run; rows are the served rows only; deleting a peer deletes its rows and is not a step.
- Ceilings: the reading of settings and the refusal texts.
- Framing: deadlines and the body's streaming; the decoder is any self-delimiting code, of which JSON objects are taken to be one.
- Ranking: the weight of a row, half for every two days, is given; libp2p identities are strings.
- Rollup: deleting a job deletes its raw usage rows, which is not a step; a commit happens before the hour it read up to is two days old.  Reading is the recorded order, since the sums do not depend on it.
- HourlyRows: the token sums are of unbounded integers, where the accumulators are int64.
- HostUsage and UsageTotals (hub/internal/store/hosts.go:523-568) add hourly and raw rows over overlapping time and are not modelled.
- Trend: rounding of float64.  Sub-second parts of a sample's time are dropped by the program before the slope is taken, which keeps the samples in order.
- Placement.Rank: does not say which of two tied verdicts comes first, because `sort.Slice` does not.
- Placement: reported sizes are as the machine sends them; a zero denominator, which float64 turns into an infinity, is 0 in `Over`.  The sentences are values, not text.
- Window: writes to the terminal, resizing, and the scheduling of readers.
- Quote.NestedRoundTrip: shows the words both shells read, not their expansion: a word with an unquoted `$`, backquote or pattern character is only marked not literal, and a digit before a redirection is read as a word.
- Restore: a rename happens or not; which names an export may contain, its checks and the encryption are left out, and entry names are taken to differ.
- Shell: rule 5 of section 2.3, which reads a `$` or backquote expansion as one piece, is not in the lexer; such a character only marks its word.
- `bucket.wait`, `batchLines`, `sortStrings` and the pool's grid, install and model listing: each would add a loop with an easy invariant.
- The job lifecycle, the refusal lists of the gate, the held-address protocol, storage clusters, the executor's kept connections, SSH, libp2p, HTTP and SQLite themselves.
