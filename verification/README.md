# Verification of the AlertKick poller

Dafny models of the parts of the poller whose correctness rests on state,
interleaving or search, with proofs about all runs, all inputs and all
environments. `dafny verify dfyconfig.toml` checks everything.

| module | file of the poller | kind of model |
|---|---|---|
| `Election`, `ElectorObject` | `leader/leader.go` | any number of pollers as a timed step system; the elector as a class |
| `LeaderWork`, `ResultBuffers` | `cmd/main.go` | work lifecycle and result stores as a step system; the shared Go slice as a class over arrays |
| `PollerSystem` | `leader/leader.go`, `cmd/main.go` | whole pollers: electors and processes joined by the transition channel, as one step system |
| `SpfText`, `SpfTerms`, `SpfWalk`, `SpfBudget` | `checker/mailposture.go` | the SPF lookup count: text, what a word is, walk, and what it counts, asks, reaches and reports |
| `MailPosture`, `MailVerdict` | `checker/mailposture.go` | SPF and DMARC issues, scoring, grade and verdict; what they mean in terms of the records |
| `SortedNames`, `McpSurface`, `McpDrift`, `McpCodes` | `checker/mcpcheck.go` | fingerprints, digest text with a decoder, drift rows; a hash and an encoder that meet the assumptions |
| `McpListing` | `checker/mcpcheck.go` | the paging loop against any server |
| `Utf8`, `FlatMaps`, `McpText` | `checker/mcpcheck.go` | excerpts, over UTF-8 as section 3 of RFC 3629 defines it |
| `Schedules` | `scheduler/scheduler.go` | the schedule as a class, and runs of its two operations |
| `Histograms` | `health/prometheus.go` | the histogram as a class, and interleaved observers as a step system |
| `Common` | | `Option`, `Distinct` |

## Assumptions

- Election: time is discrete and one clock is shared; a local computation takes
  no time, a sleep lasts exactly its interval, and a client call lasts at most
  `call`. The lease server is known through its documented contract only: one
  unexpired holder, a refusal for everyone else, a new term with each granted
  acquire. A lease is unexpired up to and including its expiry instant.
  Requests may be refused, replies lost, and a request may reach the server
  after its caller gave up (the `Stray` action). TTL, both intervals and `call`
  are parameters; no relation between them is assumed.
- Work: an action is one stretch of code that a mutex or a single goroutine
  makes atomic. `modeOk` is the outcome of the mode check of
  `config/config.go:139`; a transport is built exactly for an accepted mode.
- DNS is one fixed snapshot, a function from a name to its trimmed TXT strings.
- SHA-256 is a function parameter. Where a statement needs it to be injective
  and hex-valued, or the JSON encoder to be injective, a `requires` says so;
  `McpCodes.HashAndEncoder` constructs a hash and an encoder with all three
  properties. A JSON number is its canonical numeral.
- Names and texts are sequences of Unicode scalar values, whose order is the
  byte order of their UTF-8; where bytes matter (`McpText`) they are bytes.

## What the proofs found

- Mutual exclusion holds for all runs exactly when `2 * call + renew <= ttl`
  (`Election.SafetyIsExact`). The shipped values are a client timeout of 30s
  (`client/client.go:31`), renewal every 10s and a TTL of 30s
  (`leader/leader.go:39-41`), which is outside the condition. The comment there
  promises several chances to renew; the code steps down on the first renewal
  that fails (`leader/leader.go:115-123`).
- Whatever the parameters, `shutdown` releases the lease and leaves the state at
  leader, so a poller on its way out can report `IsLeader` beside its successor
  (`Election.ShutdownStillReportsLeader`). Their terms always differ
  (`Election.TermsDistinguishLeaders`).
- A dropped transition is not recovered by polling, contrary to
  `leader/leader.go:158-160`: the consumer in `cmd/main.go:223-236` only reads
  the channel. `PollerSystem.FollowerStillWorks` gives a joint run of electors
  and work, and `PollerSystem.SettledWorkMatchesRole` says exactly when role
  and work agree.
  The warning at `leader/leader.go:59-60` that an unread channel deadlocks the
  election does not describe the code either: the send gives up instead.
- Both goroutines of a lifecycle make their deferred call through the shared
  `work` variable (`cmd/main.go:159` and `cmd/main.go:167`). When the consumer
  handles the next Follower value before either of them has run its first
  statement, that variable is nil by then and the process panics. Until the
  signal, of the panics this code can raise through the pointer and the wait
  groups, this is the only one (`LeaderWork.CrashNeedsOvertaking`); it is
  possible whenever a stop overtakes either start
  (`LeaderWork.OvertakingCanCrash`), and a single flap of the elector brings it
  about (`PollerSystem.FlapCrashes`).
- A consumer that finds its channel empty within every two renewal intervals
  never loses a transition, so that its settled work always matches the role
  (`PollerSystem.PromptWorkMatchesRole`). The bound is tight: the run of
  `Election.FifthTransition` drops one at exactly two intervals.
- A record over the limit of section 4.6.4 of RFC 7208 can pass the SPF check
  when it includes one sender twice (`SpfBudget.RepeatedIncludePasses`: TXT
  strings that are counted 8 and unfold to 14). The count never errs the other
  way. It is the unfolded count exactly when no target whose record costs a
  lookup occurs twice in the unfolding and none is included beyond the cut at
  30 (`SpfBudget.TotalIsUnfoldedIff`), which the DNS records alone decide.
- The walk makes at most 180 TXT queries, although a call can be nested six
  deep and a call alone may follow 30 targets.
- Digest and drift rows disagree between two surfaces exactly when text has
  only moved across a NUL between a tool's title and its description: then the
  digests differ and there are no rows (`McpDrift.RoutesAgreeIff`). Tool names
  play no part, newlines in them included, since a tool's hash covers its name.

## Model

| member | source | states |
|---|---|---|
| Election.LeaseOverrun | leader/leader.go:99-149 | in every run of any number of pollers, one in the leader state outlasts its own server lease by at most 2·call + renew − ttl |
| Election.AtMostOneLeader | client/client.go:204-229 | with two calls and a renewal interval within the TTL, no reachable state has two running leaders |
| Election.SafetyIsExact | leader/leader.go:39-41 | for two or more pollers, mutual exclusion over all runs holds if and only if 2·call + renew ≤ ttl |
| Election.Overlap | leader/leader.go:108-135 | outside that condition, a concrete legal run with two running leaders |
| Election.ShutdownStillReportsLeader | leader/leader.go:170-179 | for all parameters, a run in which a poller shutting down still has the leader state while another holds the lease and leads |
| Election.TermsDistinguishLeaders | leader/leader.go:90-94 | in every run and for all parameters, two pollers that both have the leader state hold different terms |
| Election.TermIsLastGrant | leader/leader.go:90-94 | in every run a poller's term is that of the last grant, acquired or renewed, whose reply has reached it |
| Election.NextCallIsOnTime | leader/leader.go:108-147 | in every run, after a lease call returns the next one is a renewal a renew interval later on a grant, an acquire an acquire interval later after a failed acquire, and an acquire at once after a failed renewal: none earlier, and unless stopped none later |
| Election.RunKeepsLeases | leader/leader.go:110-127 | the lease invariant, age of the last grant in each loop position and the holder on record, is kept by every run |
| Election.NoDropForTwoRenewals | leader/leader.go:158-165 | from a moment with an empty channel no transition is dropped before two renewal intervals have passed, even if nobody reads |
| Election.FifthTransition | leader/leader.go:158-165 | the bound is tight: for all parameters, a run from an empty channel that drops a transition exactly two renewal intervals later |
| Election.PromptConsumerLosesNothing | leader/leader.go:71 | in every run, a consumer whose channel was empty within the last two renewal intervals at every moment never loses a transition |
| Election.ReceivedAlternates | leader/leader.go:77-81 | while nothing was dropped, the values received alternate strictly, beginning with Follower |
| Election.DrainedConsumerIsCurrent | leader/leader.go:153-166 | a consumer that has read everything knows the role if and only if an even number of transitions was dropped since the last accepted one |
| Election.DroppedStepDown | leader/leader.go:158-160 | for all parameters, a run whose fifth transition is dropped, leaving a running follower whose channel drained to Leader |
| ElectorObject.Elector.constructor | leader/leader.go:61-75 | zero intervals mean 10s and 5s, others are kept; the elector starts as a follower with term 0 and nothing published |
| ElectorObject.Elector.SetState | leader/leader.go:153-166 | the new memory is that of the step system's transition: swapped, and published unless unchanged or all four slots are taken |
| ElectorObject.Elector.Run | leader/leader.go:99-149 | for any replies and any point of cancellation the loop leaves the memory of the round-by-round specification, and releases once exactly when cancelled while leading |
| ElectorObject.PollersRunTheLoop | leader/leader.go:99-179 | in every legal run of the election, a started poller's memory is what Run leaves after the rounds the poller went through, less what was read since; and one that has left the loop asks for a release exactly when those rounds make Run ask for one (when the calls are made is NextCallIsOnTime) |
| ElectorObject.OneMoreRound | leader/leader.go:102-148 | the loop's effect grows round by round: memory, whether the loop is left, and whether a release is asked for |
| ElectorObject.RenewingKeepsLeading | leader/leader.go:108-127 | a leader whose renewals all succeed never leaves the leader state and publishes nothing further |
| LeaderWork.ExactlyOnePlace | cmd/main.go:408-438 | in every reachable state, before and after the signal, each result made is in exactly one of acknowledged (see AcknowledgedIsSucceeded), in flight, buffered, dropped, and no other result is in any |
| LeaderWork.AcknowledgedIsSucceeded | cmd/main.go:426-435 | in every run the acknowledged results are exactly the batches of the submits that succeeded, in the order they returned; a result is acknowledged if and only if some submit that succeeded carried it |
| LeaderWork.OutcomeDecides | cmd/main.go:427-435 | a submit that succeeds acknowledges its batch and leaves the buffer; one that fails leaves the acknowledged and the buffer reads as its batch followed by the newer results; nothing else acknowledges |
| LeaderWork.FlushSubmitsTheBuffer | cmd/main.go:416-426 | a flush, by the ticker or by a stop, submits the whole buffer and empties it, and submits nothing when it is empty |
| LeaderWork.SubmitKeepsItsBatch | cmd/main.go:421-433 | no action but its own return changes the batch of a submit under way |
| LeaderWork.DropsAreExcused | cmd/main.go:195-219 | until the signal, a step-down drops only results of a last submit that failed and results made after that submit had begun |
| LeaderWork.RootCancelledLast | cmd/main.go:327-335 | in every run the root context is cancelled only after the signal and after main has finished stopping the work |
| LeaderWork.SignalStopsWork | cmd/main.go:334 | the signal takes the work pointer, and with work running main cancels that lifecycle and waits for it |
| LeaderWork.ProductionOrder | cmd/main.go:97-121 | until the signal, acknowledged ++ in flight ++ buffered is in production order across failed submits, requeues and leadership flaps; acknowledged means carried by a submit that succeeded, see AcknowledgedIsSucceeded |
| LeaderWork.StepOnStream | cmd/main.go:184-220 | until the signal, that sequence changes in two ways only: a worker appends the newest result, a step-down cuts it to what is acknowledged |
| LeaderWork.AtMostOneFlush | cmd/main.go:157-178 | until the signal, at most one lifecycle has a flusher or a dispatcher that has not returned, and at most one flush is in progress, in any interleaving |
| LeaderWork.WorkFollowsLastValue | cmd/main.go:143-156 | until the signal, after the consumer has handled a value, work runs if and only if the value was Leader and the mode is one config.Load accepts |
| LeaderWork.CrashNeedsOvertaking | cmd/main.go:157-168 | until the signal, every run that panics contains a stop that overtook the start of the lifecycle's flusher or of its dispatcher |
| LeaderWork.OvertakingCanCrash | cmd/main.go:184-193 | from every reachable state in which a stop can overtake the start of either goroutine, two steps lead to the panic |
| LeaderWork.QuickStopCrashes | cmd/main.go:157-193 | a run Follower, Leader, Follower that panics, with either goroutine being the late one and the other begun or not |
| LeaderWork.WorkMatchesRole | cmd/main.go:223-236 | for any election run and any work run that handled what was received there: work agrees with the role if and only if an even number of transitions was dropped since the last accepted one |
| PollerSystem.ElectionOf | cmd/main.go:223-240 | every joint run contains a legal election run that ends in the same election state, so every result about elections holds of whole pollers |
| PollerSystem.WorkOf | cmd/main.go:143-236 | every joint run contains, for each process, a legal work run that ends in the same state of the process |
| PollerSystem.RunKeepsDelivered | cmd/main.go:223-224 | in every joint run each consumer has handled exactly the values it has received |
| PollerSystem.SettledWorkMatchesRole | cmd/main.go:223-236 | in every joint run of any number of pollers, the work of a settled poller agrees with its role if and only if an even number of transitions was dropped since the last accepted one |
| PollerSystem.AtMostOneWorks | cmd/main.go:143-156 | with two calls and a renewal interval within the TTL, of the settled running pollers without a drop at most one has its work running |
| PollerSystem.PromptWorkMatchesRole | cmd/main.go:223-236 | in every joint run, a settled poller whose consumer kept its channel empty within every two renewal intervals works if and only if it leads |
| PollerSystem.AtMostOnePromptWorks | cmd/main.go:143-156 | with two calls and a renewal interval within the TTL, of the settled running pollers with such consumers at most one works |
| PollerSystem.FollowerStillWorks | leader/leader.go:158-165 | for all parameters, one joint run leaves a running follower settled, with nothing to read, and its work still going |
| PollerSystem.FlapCrashes | cmd/main.go:157-236 | for all parameters, a joint run in which one flap of the elector makes the process panic, with either goroutine being the late one |
| ResultBuffers.ResultBuffer.Append | cmd/main.go:116-118 | the buffer reads as before with the result at its end, and no in-flight batch changes, although the truncated backing array is reused |
| ResultBuffers.ResultBuffer.Take | cmd/main.go:416-424 | the batch is a fresh copy of the whole buffer, which is truncated in place |
| ResultBuffers.ResultBuffer.Requeue | cmd/main.go:430-432 | the buffer reads exactly as the batch followed by the newer results |
| ResultBuffers.ResultBuffer.DropUnflushed | cmd/main.go:214-219 | the buffer is emptied in place and the number dropped is reported |
| ResultBuffers.ResultBuffer.Flush | cmd/main.go:408-438 | for any results appended during the submit, what the submit saw never changed, and the buffer is the newer results, behind the old contents again exactly when the submit failed |
| SpfText.Fields | checker/mailposture.go:444 | no field is empty or contains a space, and text with anything but spaces has a field |
| SpfText.FieldsOfJoined | checker/mailposture.go:444 | splitting undoes joining for all lists of nonempty words without spaces |
| SpfText.FieldsCons | checker/mailposture.go:444 | a word followed by nothing or by white space is the first field, and the fields of the rest follow |
| SpfText.FieldsSkipSpace | checker/mailposture.go:444 | white space in front of a text adds no field |
| SpfText.SpacesAre | checker/mailposture.go:444 | white space is the 25 characters of Unicode's property of that name |
| SpfText.RecordHasFields | checker/mailposture.go:421-424 | dropping the first field of a record that passed the filter is always in range |
| SpfTerms.TermOfWord | checker/mailposture.go:445-463 | what a word of a record is, from its text alone: a lookup for each of a, mx, ptr and exists, alone or with ':' or '/', in any case and behind any qualifiers; a target for include and redirect with ':' or '='; ptr |
| SpfTerms.CostOfRecord | checker/mailposture.go:443-450 | a record of words costs by itself the number of its words after the version that are lookups and of those that name a target |
| SpfTerms.LookupIff | checker/mailposture.go:110 | a lower-cased term is a lookup if and only if it is one of the four names followed by nothing, ':' or '/' |
| SpfTerms.IncludeIff | checker/mailposture.go:109 | a lower-cased term includes x if and only if it is include or redirect, ':' or '=', and a nonempty x |
| SpfTerms.MacroReplaced | checker/mailposture.go:451 | each domain macro of a text, from the left, becomes the name, and the text before it stays |
| SpfTerms.SpfRecordIff | checker/mailposture.go:376 | a TXT string is an SPF record if and only if it is the version, in any case, alone or before a space |
| SpfWalk.FindSpf | checker/mailposture.go:374-381 | a record found passes the filter and has a first field; none is found exactly when no TXT string passes |
| SpfWalk.Counter.Count | checker/mailposture.go:442-466 | the recursive closure, with its shared visited set and issues, computes the specified walk of the parsed record; what parsing makes of a word is TermOfWord |
| SpfWalk.Counter.CountTerm | checker/mailposture.go:444-464 | one turn of the loop is one term of the walk: count, follow or skip, then the ptr issue; what parsing makes of the word is TermOfWord |
| SpfWalk.Counter.Follow | checker/mailposture.go:453-459 | a followed target is marked before its query, and its nested count or its issue is added |
| SpfBudget.LookupTotal | checker/mailposture.go:440-467 | the total is the root's own lookup terms plus those of each target in the final visited set, each counted and queried once |
| SpfBudget.UnfoldedIsTotalPlusMissed | checker/mailposture.go:440-467 | the tree-unfolded count cut at depth 6 is the total plus the unfolded cost of every skipped include |
| SpfBudget.TotalAgainstUnfolded | checker/mailposture.go:469-471 | the total never exceeds the unfolded count, so an over-the-limit issue is never wrong; both are equal if and only if no skipped include would have cost anything |
| SpfBudget.TotalIsUnfoldedIff | checker/mailposture.go:442-467 | on every snapshot the total is the unfolded count if and only if no costly target occurs twice in the unfolding and no include of one stands beyond the cut at 30 |
| SpfBudget.Within30RepetitionDecides | checker/mailposture.go:449-459 | up to an unfolded count of 30, repetition of a costly target is all that can make the total fall short |
| SpfBudget.NoRepeatNoCut | checker/mailposture.go:452 | with no target met twice in the unfolding and no include beyond the cut at 30, both read off the DNS, the total is the unfolded count |
| SpfBudget.RepeatedIncludePasses | checker/mailposture.go:444-455 | for any domain and any plain sender name, two TXT strings that the walk counts as 8 and that unfold to 14 |
| SpfBudget.AtMost180Queries | checker/mailposture.go:452-455 | on every snapshot, cyclic ones included, the walk ends after at most 180 TXT queries |
| SpfBudget.VisitsExactlyTheReachable | checker/mailposture.go:449-459 | the visited set is the set of targets reachable from the root, cycles included, if and only if every skipped target was visited elsewhere |
| SpfBudget.CompleteWithin30 | checker/mailposture.go:452 | with a total of at most 30 and no unseen target skipped for depth, the visited set is exactly the reachable targets |
| SpfBudget.CompleteIffNothingNewBeyond | checker/mailposture.go:442-467 | read off the DNS, up to an unfolded count of 30 without repetition of a costly target: the visited set is the unfolding's, and it is the reachable set if and only if every target named at the last depth also stands in the unfolding |
| SpfBudget.WalkReports | checker/mailposture.go:454-463 | on every snapshot a missing record is reported exactly for the visited targets without one, and ptr exactly when it stands in the domain's record or a visited target's |
| MailPosture.FirstRecord | checker/mailposture.go:420-430 | the record the check reports on is the one mailFindSPF finds, and there is one exactly when the collecting loop has any |
| MailPosture.CountLookups | checker/mailposture.go:440-467 | the lookups and issues of the report are those of the walk from the domain's first record |
| MailPosture.CheckSpf | checker/mailposture.go:419-498 | the whole report for every snapshot equals its specification, whose all mechanism is AllOfReport and whose issues are IssuesOfReport |
| MailVerdict.AllOfReport | checker/mailposture.go:473-486 | for records of words: the report's all is the record's first all word; without one, that of the first record of the first redirect's target, the macro replaced; and none when there is no redirect, no such record or no all in it |
| MailVerdict.IssuesOfReport | checker/mailposture.go:432-496 | each issue is in the report if and only if it applies: more than one record, more than 255 bytes, more than 10 lookups, all being + or ?, neither all nor redirect, and those the walk met |
| MailVerdict.SpfSeverityIsOfTheText | checker/mailposture.go:178-185 | the severity of each SPF issue is what the three marks in its text decide |
| MailVerdict.DmarcSeverityIsOfTheText | checker/mailposture.go:213-220 | the severity of each DMARC issue is what the two marks in its text decide |
| MailVerdict.SpfIsPriced | checker/mailposture.go:186-202 | the SPF deduction is 30 without a record and otherwise the sum of the prices of the issues reported |
| MailVerdict.DmarcIsPriced | checker/mailposture.go:221-236 | the DMARC deduction is 30 without a record and otherwise the sum of the prices of the issues reported |
| MailVerdict.IssuesOfDmarc | checker/mailposture.go:514-570 | each DMARC issue is reported if and only if it applies to the tags |
| MailVerdict.ScoreIsPriced | checker/mailposture.go:278-309 | the score is 100 less the SPF, DMARC and listing deductions, 20 a listing and 40 at most, and not below 0 |
| MailVerdict.GradeCutOffs | checker/mailposture.go:323-337 | each grade is reached if and only if the score is at its cut-off or above |
| MailVerdict.FindingsAreDue | checker/mailposture.go:160-304 | for all inputs, a finding of a title and severity is in the report if and only if it is due |
| MailPosture.FindInJoined | checker/mailposture.go:107-108 | in any record of words with single spaces the all and redirect patterns find the first matching words, and never something inside a word |
| MailPosture.Posture.Add | checker/mailposture.go:152-157 | Fails stays the titles of the fail findings, in order |
| MailPosture.Posture.ScoreSpf | checker/mailposture.go:173-206 | the SPF deduction and findings, with Fails kept in step |
| MailPosture.Posture.ScoreDmarc | checker/mailposture.go:208-240 | the DMARC deduction and findings, with Fails kept in step |
| MailPosture.Posture.ScoreBlocklists | checker/mailposture.go:278-288 | the blocklist deduction, capped at 40, one fail finding a listing, and a pass only when something was checked |
| MailPosture.RequiredPolicyIsEnforced | checker/mailposture.go:294-304 | the report has the policy among its Fails if and only if the published policy, none without a DMARC record, does not meet the required one; an unknown requirement asks for nothing |
| MailPosture.Posture.Score | checker/mailposture.go:150-321 | all findings in order, Fails as their fail titles, the floor at 0, the grade, and the summary that goes with the findings |
| MailPosture.ScoreBounds | checker/mailposture.go:306-309 | for all inputs the score is in 0..100; without SPF or without DMARC it is at most 70 and the grade at most B, without both at most 40 |
| MailPosture.GradeIsMonotone | checker/mailposture.go:323-337 | a higher score never has a lower grade |
| MailPosture.FailTitlesAre | checker/mailposture.go:311-314 | Fails is empty exactly when no finding is a fail |
| MailPosture.FailTitleIff | checker/mailposture.go:152-157 | a title is in Fails exactly when a fail finding has it |
| MailPosture.SpfDeductionIsReported | checker/mailposture.go:177-206 | for every snapshot, a deduction for SPF comes with a fail or warn finding |
| MailPosture.DmarcDeductionIsReported | checker/mailposture.go:554-573 | a deduction for DMARC comes with a fail or warn finding |
| MailPosture.AllGoodIsPerfect | checker/mailposture.go:312-319 | the all-good summary appears only with the full score and the top grade: nothing is deducted silently |
| SortedNames.SortKeys | checker/mcpcheck.go:488-495 | the keys in strictly ascending order, whatever order the map is iterated in |
| SortedNames.SortingIsUnique | checker/mcpcheck.go:427 | there is one ascending list of a set of names |
| SortedNames.LessIsLexicographic | checker/mcpcheck.go:493 | the order is the lexicographic one: the first difference, or the end of the shorter name, decides |
| McpSurface.SurfaceDigest | checker/mcpcheck.go:422-438 | the string builder arrives at the hash of the specified text, independent of iteration order |
| McpSurface.DigestTextDecodes | checker/mcpcheck.go:422-438 | for all newline-free names, also with '=' in them or named instructions, the digest text decodes to the name-to-hash map and the instructions hash |
| McpSurface.DigestSeparates | checker/mcpcheck.go:437 | for arbitrary hash maps with newline-free names and an injective hash, two surfaces have one digest if and only if name-to-hash maps and instructions agree |
| McpSurface.DigestSeparatesFingerprints | checker/mcpcheck.go:422-438 | where hashes cover the names, two surfaces have one digest if and only if name-to-hash maps and instructions agree, whatever the names contain |
| McpCodes.HashAndEncoder | checker/mcpcheck.go:402-420 | there are an injective hash free of '=' and newlines and an injective encoder, so the statements that assume them are about something |
| McpDrift.Diff | checker/mcpcheck.go:442-486 | the loops append exactly the specified rows in order |
| McpDrift.DiffIsExact | checker/mcpcheck.go:442-486 | a row is reported if and only if a one-sided name, a differing part of a changed common tool, or the instructions justify it; rows are in strictly ascending order, so each appears once |
| McpDrift.DiffEmptyIff | checker/mcpcheck.go:450-484 | for any two hash maps there are no rows if and only if the instructions agree, the names are the same, and each tool has the same hash or the same three part hashes |
| McpDrift.PartsDetermineHash | checker/mcpcheck.go:384-398 | tools with one name, NUL-free titles and equal parts have equal hashes |
| McpDrift.HashesTellTools | checker/mcpcheck.go:384-398 | two tools of one name have equal part hashes, all three together, if and only if schemas, annotations and joined text agree, and equal hashes if and only if the titles agree too; each hash by itself is EachHashTells |
| McpDrift.EachHashTells | checker/mcpcheck.go:388-394 | for any two tools: the description hashes agree if and only if title, NUL and description do, the schema hashes iff both schemas do, the annotations hashes iff the annotations do, and the tool hashes iff the tools are equal |
| McpDrift.RowsTellChanges | checker/mcpcheck.go:450-481 | between any two surfaces a row of each kind about a name is reported if and only if the tool was removed, was added, or differs in exactly the fields that kind stands for |
| McpDrift.RoutesAgreeIff | checker/mcpcheck.go:384-486 | between any two fingerprinted surfaces, under either policy, no rows goes with equal digests if and only if text has not merely moved across a NUL; where it has, there are no rows and the digests differ |
| McpDrift.DiffAgreesWithDigest | checker/mcpcheck.go:422-486 | with NUL-free titles, and tools called anything, no rows if and only if the digests are equal, under either policy |
| McpDrift.NulTitleHidesAChange | checker/mcpcheck.go:392 | two surfaces with different digests and no rows between them, text having moved across a NUL |
| McpDrift.AnnotationsFailIffLevelRises | checker/mcpcheck.go:472-480 | for fingerprinted tools an annotations row fails if and only if the policy is not record and the level read-only < non-destructive < destructive rises |
| McpDrift.NoteTellsWhy | checker/mcpcheck.go:472-480 | an annotations row says no longer read-only or now destructive exactly when the level given by the annotations rises from read-only or from non-destructive, where missing annotations and a missing hint mean destructive |
| McpDrift.PassKeepsTool | checker/mcpcheck.go:450-481 | between two surfaces without a failing row the tool names are the same and no tool's level rises |
| McpDrift.ChainNeverRaisesLevel | checker/mcpcheck.go:442-486 | along any chain of such comparisons no tool appears, disappears or rises |
| McpListing.ListTools | checker/mcpcheck.go:274-300 | against every paging server at most 20 requests, each with the previous cursor; the first 500 of the concatenated pages; the flag down exactly when no cursor was left unread and no tool cut |
| McpListing.ListingLimits | checker/mcpcheck.go:277-300 | at most 20 replies and 500 tools; with fewer than 500 tools nothing was cut, and a truncated list then means 20 pages |
| McpListing.TraceFollowsCursors | checker/mcpcheck.go:276-291 | the first request has no cursor and each later one that of the page before it |
| McpListing.CollectedInOrder | checker/mcpcheck.go:284 | the tools stand in the order of the pages |
| McpListing.ListingIsUnique | checker/mcpcheck.go:277-295 | that promise admits one conversation and one result for each server |
| McpListing.UntruncatedIsWhole | checker/mcpcheck.go:301-303 | an unflagged list equals what any conversation that follows all cursors to the end would collect |
| McpListing.FlaggedMissesSomething | checker/mcpcheck.go:285-300 | a flagged list leaves out a page whose cursor was named, or tools past the 500th |
| Utf8.RunesOfEncoded | checker/mcpcheck.go:590 | decoding undoes encoding for all rune sequences |
| Utf8.DecodeIsExact | checker/mcpcheck.go:590 | bytes that begin with the encoding of some rune read as that rune, and all others as one replacement rune for one byte |
| Utf8.SliceIsValid | checker/mcpcheck.go:577-583 | well-formed text cut at two rune starts is well formed |
| McpText.Around | checker/mcpcheck.go:569-584 | the excerpt holds the whole match, begins and ends at the rune starts nearest outward to 40 bytes of context, for every match and every nonempty text, and is well formed when the text is |
| McpText.MakeExcerpt | checker/mcpcheck.go:588-605 | the result is all runes shown, or the runes up to where n bytes are filled and then three dots |
| McpText.CutIsUnique | checker/mcpcheck.go:591-594 | there is one such place to stop |
| McpText.ExcerptIsSafe | checker/mcpcheck.go:586-605 | for every byte string and n the excerpt is well-formed UTF-8 of at most n + 11 bytes with no hidden rune, newline, carriage return or tab |
| McpText.HiddenRunesAre | checker/mcpcheck.go:510-517 | the hidden runes are the zero-width and directional marks, the bidirectional controls, the joiner and invisible operators, the byte order mark and the 128 tags |
| McpText.ShownTellsHidden | checker/mcpcheck.go:596-597 | a hidden rune is shown as its number in at least four hexadecimal digits, from which it can be read back |
| McpText.LineBreaksAreSpaces | checker/mcpcheck.go:598-599 | a newline, a carriage return and a tab are each shown as one space |
| McpText.PartEndsInDots | checker/mcpcheck.go:591-594 | an excerpt of part of the input is what is shown of that part, and then three dots |
| McpText.ShortVisibleText | checker/mcpcheck.go:590-604 | a visible text of at most n bytes is its own excerpt |
| Schedules.Scheduler.UpdateMonitors | scheduler/scheduler.go:31-53 | exactly the listed monitors remain, each with its latest assignment; a tracked one keeps its time, a new one is due at its clock reading |
| Schedules.RefreshTakesLast | scheduler/scheduler.go:37-50 | the last entry of each uuid becomes its assignment; a tracked monitor keeps its time and a new one is overdue from its clock reading on |
| Schedules.Scheduler.GetDueChecks | scheduler/scheduler.go:56-81 | for any map order, min(max(1, maxBatch), overdue) distinct overdue monitors are emitted and moved by their interval; no other changes |
| Schedules.KeepsTime | scheduler/scheduler.go:39-42 | a monitor that stays listed keeps the time of its last emission over any refreshes and dispatches |
| Schedules.EmissionsAreSpaced | scheduler/scheduler.go:64-72 | over any run with any clock readings, consecutive emissions of a continuously listed monitor are at least its interval apart |
| Schedules.DueAgainExactly | scheduler/scheduler.go:64-72 | after an emission a monitor that stays listed is overdue again exactly from its interval in seconds on, 60 seconds when that is zero |
| Schedules.DispatchDrains | scheduler/scheduler.go:67-72 | with positive intervals, a call takes exactly the emitted monitors out of the overdue ones |
| Schedules.BurstDrains | scheduler/scheduler.go:63-78 | at a fixed clock, k calls leave the overdue count less k · max(1, maxBatch), or none |
| Schedules.DrainedExactlyWhenCovered | scheduler/scheduler.go:74-76 | nothing overdue is left if and only if there were at least ⌈overdue / max(1, maxBatch)⌉ calls |
| Histograms.Bucket | health/prometheus.go:32-38 | the first bucket whose bound is not below the value |
| Histograms.Histogram.Observe | health/prometheus.go:31-48 | alone, one bucket and the count rise by one and the sum takes the value |
| Histograms.Histogram.CompareAndSwap | health/prometheus.go:44 | swaps exactly when the sum is still what was read |
| Histograms.Histogram.Write | health/prometheus.go:51-62 | each rendered row is the total of the buckets up to its bound |
| Histograms.CountTrailsBuckets | health/prometheus.go:39-40 | under any interleaving, count ≤ sum of buckets ≤ count + calls in progress |
| Histograms.SumIsFold | health/prometheus.go:41-47 | under any interleaving the sum is the fold of the observed values in the order their swaps succeeded, and those are exactly the values of the calls that returned |
| Histograms.RenderedWhenIdle | health/prometheus.go:53-61 | when idle with ascending bounds, the row of a bound is the number of observations not above it, and +Inf, the count and the number of observations are one |
| Histograms.RowsAmongObservers | health/prometheus.go:51-59 | however observers interleave with a rendering, the row of a bound lies between the observations not above it that had returned when it began and those begun when its bucket was loaded; likewise +Inf |
| Histograms.RowsNeverDecrease | health/prometheus.go:53-59 | cumulative rows never decrease, for any bucket readings |

## Left out

- Election.AtMostOneLeader: is about pollers that have not begun their shutdown; after that the state stays at leader, see ShutdownStillReportsLeader.
- Election.Next: a poller that restarts under its old identifier, and clocks that run at different speeds, are not modelled.
- ElectorObject.Elector.Run: an endless run is covered through all its finite beginnings; the atomic fields have one writer, so interleaved readers are not modelled there.
- LeaderWork.ProductionOrder: order, single flight and the work pointer are claimed until the shutdown signal only; after it main and the consumer can both be stopping work and late results are not flushed, and only conservation is claimed.
- LeaderWork.CrashNeedsOvertaking: is about the time until the signal; after it a goroutine that begins late counts down a later lifecycle's wait group, which is modelled but about which only conservation is claimed.
- PollerSystem.Init: every process has an accepted mode; a crash ends the process's work only, its elector going on as one whose requests may all be lost.
- LeaderWork: the worker pool and its channel, what a dispatcher does while it runs, and the sinks' Flush and Close; a submit either succeeds or fails.
- ResultBuffers.ResultBuffer: each method is one critical section; interleaving of the sections is the subject of LeaderWork.
- SpfText.Lower: letter case is ASCII; the Unicode folding of strings.ToLower and of (?i) is not modelled.
- SpfWalk: a DNS answer that changes during the walk; the wording of the issues, of which only the severity-deciding kind is kept.
- MailPosture.Posture.Score: finding texts other than those that decide a severity, record texts, counts in titles and the sorted list of listings are left out; DKIM, MX, MTA-STS, TLS-RPT and blocklist answers and the parsed DMARC tags are inputs.
- McpSurface.Fingerprint: JSON is a datatype in canonical form; encoding failures, which hash to the empty string, are left out. The field names of the annotations object are those of the MCP protocol; the SDK that declares them is not part of this model.
- McpDrift.Diff: the detail texts beyond which of the two reasons an annotations row names.
- McpSurface.DigestTextDecodes: is about newline-free names, since without the hashes' meaning a text with a newline in a name reads as two lines (NewlineNameForgesADigest); DigestSeparatesFingerprints needs no such condition.
- McpText.Around: the match position is an input; the lint patterns that find it are not modelled.
- Schedules.Scheduler.GetDueChecks: emitted monitors are named by their identifier; overflow of 64-bit durations is not modelled.
- Histograms.Histogram.Observe: values are reals, so NaN and infinities are not modelled; float addition is an arbitrary function on the sum's bit pattern; 64-bit wrap-around of the counters is left out.
- Histograms.Histogram.Write: reads at one moment; a rendering among observers is the subject of RowsAmongObservers, which speaks of the loaded values.
- HTTP, DNS, TLS, TCP and Kafka traffic, configuration, logs, health endpoints, the watchdog and OAuth discovery.
- The glue from check results to API payloads, and the poison-lint rules, which would only add easy members.
