# A verified model of radius-go

`radius-go` is a RADIUS server for hotspot vouchers and PPPoE subscribers. It keeps users,
sessions and network access servers in memory, meters vouchers from accounting packets,
writes to PostgreSQL through goroutines nobody waits for, and merges the database back into
memory on a timer. Several processes may run over one database.

This project models that behaviour in Dafny and proves what it does and does not guarantee.
`dafny verify dfyconfig.toml` checks everything.

## How the model is built

- `Domain`, `Counters`, `Hosts` hold the entities, the 32- and 64-bit arithmetic of the
  accounting counters, and the address functions of the disconnect code.
- `ServerSpec` says, as functions, what each critical section of the server does to its
  memory and which statements it leaves to goroutines. `Server.Service` is the service
  object: its maps are fields, its handlers are methods with the loops of the source, and
  every method is proved to compute the function. Go's map iteration order is an arbitrary
  choice in every loop. `Database` does the same for the repository's statements.
- `Cluster` is a state machine of any number of processes over one database. Each critical
  section, each statement of a goroutine and each read of the database is a step; packets,
  clocks, the scheduler, the order in which goroutines finish and the answers of the network
  are labels of the steps. Disabling a user and an answer to a disconnect may happen at any
  moment, which allows more than the server does. Lists that were read can be merged at any
  later time and in any order. The state also records the history of a run: the answers
  given, the accounting updates charged, and the counters from which records are metered. An
  Access-Request is handled in pieces that interleave, or in one step, which leads nowhere the
  pieces do not (`EveryRunIsInPieces`).
- The remaining modules prove properties over every run (`PopulationLaws`, `Metering`,
  `Ceilings`, `Convergence`, `Conservation`, `Records`, `SharedSessions`, `Enforcement`,
  `SpentEverywhere`, `Calendar`, `Expiry`, `Budget`, `Overspending`, `Limits`, `Lifecycle`,
  `AuthLaws`, `Freshness`, `Identity`, `SessionRows`, `SimultaneousUse`, `SharedLimit`,
  `Uninterrupted`) or of one component (`RefreshLaws`, `SessionLaws`, `AcctLaws`, `Migrations`,
  `Tlv`, `Vsa`, `Rates`, `Vouchers`); `Sums`, `Applied`, `Decimal` and `FileNames` support
  them. Where a run that breaks an intended property is shown, it starts from every state of
  the kind, not from one.

## What was found

Where the code and its documentation or intent part, the model follows the code. Each of
these is a lemma below, with the exact condition where there is one.

- Two processes over one database (README.md:51 calls the server HA-ready) charge a shared
  session twice for what both of them saw (`SharedSessionOvercharge`,
  `CopiedSessionIsChargedTwice`), accept a calendar voucher anew in a process that has not seen
  its first login (`SecondProcessOverstays`), and take a session for active that the other has
  seen end when two upserts land in the wrong order (`RowIsActiveIff`,
  `LateUpsertRevivesElsewhere`).
- The first session of a calendar voucher carries no Session-Timeout (`GrantEndsByExpiry`), and
  two requests racing for the first login restart its window
  (`RacingRequestsRestartTheWindow`, `LimitHoldsIff`).
- A user disabled in memory and re-enabled in the database stays disabled and rejected in
  that process (`RefreshKeepsProgress`, `DisabledMeansRejectedForever`).
- A usage delta that does not fit the INTEGER column of the seconds is refused by the
  database and silently lost, with all that was reported, while it stays charged in memory;
  a session time that grows by more than 2^31 - 1 seconds is one (`ChargeIsLostIff`).
- An octet total of both directions above 2^63 - 1 is charged as a negative amount
  (`NeverNegativeIffSane`).
- The "active sessions kept" of a cleanup counts stopped and stale records too
  (`KeptIsActiveIff`).
- An acknowledged disconnect does not mark sessions on IPv6 NASes, and marks sessions on
  every other NAS whose address has the contacted one as a prefix (`AckReachesRemoteAddrIff`,
  `MatchIff`, `AckIsExactIff`).
- Accepts given before the first Start exceed the simultaneous-use limit, by one less than
  there are of them (`SessionsAreBounded`, `AcceptsThenStarts`). An accept is given when the
  sessions are counted; its reply leaves later, so a NAS that waits for replies is not enough.
- A grant decided on a copy of a prepaid voucher that has missed a charge lets the voucher be
  overspent by exactly that charge, though the NAS keeps to every grant (`GrantOverspendsIff`).
  In one process a request that was read before the last accounting update does it
  (`StaleRequestOverspends`), in a second process any request (`LaggingProcessOverspends`).
- Each process counts only the sessions it holds, so together they hold the simultaneous-use
  limit as many times as there are processes (`TotalIsBounded`, `EveryProcessFills`).
- With a configured session timeout, an Accept of a prepaid voucher carries two
  Session-Timeout attributes (`AcceptGrantsTheRest`).
- A rate limit or group set on a reply removes the address pool, the DNS servers, the rate
  limit and every other vendor-specific attribute put there before it (`LastStringWins`,
  `EarlierStringSurvivesIff`).
- A package with a data cap above 2^31 - 1 and below 2^32 octets cannot be used to generate
  vouchers: `max_total_octets` is an INTEGER column (`CustomBatchIsCompleteIff`).

## Model

| member | source | states |
|---|---|---|
| Counters.CombinedIsExact | internal/radius/accounting.go:97-111 | gigawords and octets give the exact 64-bit total, clamped at 2^63 - 1; the uint64 arithmetic never wraps |
| Counters.NeverNegativeIffSane | internal/radius/accounting.go:130-133 | a packet can never be charged a negative number of octets exactly when its two totals together fit an int64 |
| Counters.NothingWrapsBelowTwo62 | internal/radius/accounting.go:97-133 | while every total is below 2^62 no sum and no delta wraps, and what is charged is the exact growth or the exact new total |
| Counters.DeltaExact | internal/radius/accounting.go:125-133 | the delta is the difference, or the whole new value after a reset, and lies between zero and the report |
| Counters.PeaksSnoc | internal/radius/accounting.go:125-138 | one more report raises the sum of the peaks by exactly the delta the code charges |
| Counters.ChargedIsPeaks | internal/radius/accounting.go:125-138 | over any sequence of reports the incremental deltas add up to the sum of the peaks less the starting value |
| Counters.SessionChargeBounds | internal/radius/accounting.go:125-138 | a session from zero is charged at least its largest report, at most the sum, and exactly the last one when no counter goes backwards |
| Counters.RetransmissionIsFree | internal/radius/accounting.go:125-138 | repeating the latest report charges nothing, whatever came before |
| Counters.SplitSessionOvercharge | internal/radius/service.go:328-332 | as sequences of reports: a session metered from zero and, elsewhere, from a copied counter is overcharged by what both counted above the copy |
| Hosts.SplitOfJoin | internal/radius/coa.go:115-120 | splitting a joined host and port gives back the host, for hosts with and without colons |
| Hosts.AckReachesSessionIff | internal/radius/coa.go:152-158 | the answer of a session's own NAS matches the session exactly when its address is not written in brackets |
| Hosts.AckReachesRemoteAddrIff | internal/radius/coa.go:152-158 | for addresses as Go prints them: exactly the hosts without a colon |
| Hosts.PodPort | internal/radius/coa.go:120-120 | requests go to port 3799 of the host, and the host is read back from the address |
| Hosts.MatchIff | internal/radius/coa.go:152-158 | an answer from host h reaches exactly the sessions on hosts that have h as a prefix, where neither has a colon |
| AcctLaws.StartMakesRecord | internal/radius/accounting.go:59-79 | a Start makes one active record with the packet's session id, user name and address and no counters, and changes nothing else |
| AcctLaws.UpdateWritesRecord | internal/radius/accounting.go:135-147 | an update writes the exact total of each direction and the time into one record and upserts it; a Stop stops it; its identity stays |
| AcctLaws.OthersAreNotMetered | internal/radius/accounting.go:150-150 | nobody but a cached voucher is metered |
| AcctLaws.UpdateMetersUser | internal/radius/accounting.go:120-171 | a voucher's usage grows by exactly the growth of the record's counters, nothing else of it changes, and the same amount goes to the database when there is any |
| Identity.EveryRecordHasItsOrigin | internal/radius/accounting.go:59-79 | in every run, a record in memory, in a list read and in a row has the session id, user name, NAS address and start time of the Start that made it, or of the initial row of its id |
| Identity.PacketFindsItsSession | internal/radius/accounting.go:118-121 | in every run, a packet with the session id and user name of an earlier Start at the process finds its record, and only that one when no other Start or initial row carries both |
| AuthLaws.AcceptedIff | internal/radius/auth.go:28-104 | exactly who is accepted: a cached, enabled user with the right password, whose voucher has not run out and whose active sessions leave room, when the reply can be signed |
| AuthLaws.WrongPasswordDoesNothing | internal/radius/auth.go:39-42 | without the right password a request is rejected and changes nothing |
| AuthLaws.RequestChanges | internal/radius/auth.go:46-88 | a request changes only the first login, the expiry of a calendar voucher and the enabling of a voucher that has run out, in memory and by the statements |
| AuthLaws.ConfiguredTimeoutFirst | internal/radius/auth.go:146-148 | the first Session-Timeout is the user's own, else the profile's, and without both there is none for a user who is no voucher |
| AuthLaws.EveryAcceptHadThePassword | internal/radius/auth.go:28-42 | in every run, every accept answers a request of that user that reached the same process with the right password |
| Server.Service.constructor | internal/radius/service.go:67-77 | a new service has empty maps and zero counters |
| Server.Service.HandleAccounting | internal/radius/accounting.go:17-40 | every packet is counted, one without a status type is not answered, and each type does its own update or none |
| Server.Service.HandleAcctStart | internal/radius/accounting.go:59-79 | an accounting start adds one record, which a packet with the same session id and user name matches, and hands its upsert to a goroutine |
| Server.Service.ReadCounters | internal/radius/accounting.go:86-111 | the three counters of a packet, missing ones as zero, with gigawords combined |
| Server.Service.MeterVoucher | internal/radius/accounting.go:150-164 | only a cached voucher is metered; its counters grow by the deltas and a reached limit is reported |
| Server.Service.ApplyAcctUpdate | internal/radius/accounting.go:85-174 | exactly one record with the packet's session id and user name, any of them, is updated, the user metered and the writes handed over; without a match nothing changes |
| Server.Service.HandleAcctUpdate | internal/radius/accounting.go:176-186 | an Interim or Stop does the update, and disables and disconnects the user exactly when it reached a limit |
| Server.Service.DisconnectAndDisableVoucher | internal/radius/accounting.go:189-210 | a cached user is disabled in memory, and one goroutine is left to disconnect it and then disable its row |
| Server.Service.RefreshFromDB | internal/radius/service.go:181-246 | the maps become the merge and join of the lists read with the old memory; sessions are untouched |
| Server.Service.Preserve | internal/radius/service.go:212-233 | a row keeps larger cached counters, a cached disabling, and cached login and expiry times |
| Server.Service.CleanupStaleSessions | internal/radius/service.go:287-314 | exactly the active records older than the cutoff become stale with a stop time and are upserted, and both counts are what the report claims |
| Server.Service.ReconcileSessions | internal/radius/service.go:318-335 | rows with new ids are added, nothing else changes, and the count is the number added |
| Server.Service.Snapshot | internal/radius/service.go:369-379 | the report counts NASes, subscribers and active sessions |
| Server.Service.CollectNASForUser | internal/radius/coa.go:105-124 | the list holds exactly the addresses, with a fitting secret, of the registered NASes hosting active sessions of the user |
| Server.Service.MarkSessions | internal/radius/coa.go:126-149 | exactly the matching active sessions of the user become stopped with a stop time |
| Server.Service.DisconnectUser | internal/radius/coa.go:21-41 | the sessions end as the answers say, in whatever order the NASes are asked, and the count is the number of asked NASes that acknowledged |
| Server.Service.HandleAuth | internal/radius/auth.go:23-210 | the reply, the memory and the statements of one request handled alone, and the request counters; an Accept only with a first password that the hash of the cached, enabled user belongs to |
| Server.Service.CheckVoucher | internal/radius/auth.go:46-88 | the first login is recorded once, and a voucher past its expiry, time limit or data cap is refused and disabled |
| Server.Service.CountActive | internal/radius/auth.go:92-99 | the number of the user's active sessions |
| Database.Repository.AddUsageDelta | internal/radius/repository.go:226-231 | both columns grow by the deltas in one statement, unless a sum does not fit its column |
| Database.Repository.RecordFirstLogin | internal/radius/repository.go:215-224 | the first login is set, and for calendar vouchers the expiry with it |
| Database.Repository.DisableUser | internal/radius/repository.go:233-236 | the row is disabled and nothing else changes |
| Database.Repository.UpsertSession | internal/radius/repository.go:298-317 | the row of the session's id becomes the session, and no other row changes |
| Database.Repository.ListUsers | internal/radius/repository.go:70-77 | the rows read are the users there are |
| Database.Repository.ListActiveSessions | internal/radius/repository.go:319-339 | the rows read are exactly the active sessions |
| ServerSpec.CollectedExactly | internal/radius/coa.go:105-124 | requests go exactly to the registered NASes that host an active session of the user, each with the secret of that NAS |
| ServerSpec.DisconnectComplete | internal/radius/coa.go:21-41 | when no NAS refuses, every active session of the user on a registered NAS at an address without brackets is stopped |
| ServerSpec.DisconnectEndsIff | internal/radius/coa.go:25-38 | for arbitrary answers: an active session of the user is stopped exactly when an asked NAS did not answer, or one acknowledged whose host, without a colon, begins the session's |
| ServerSpec.RefusedDisconnectDoesNothing | internal/radius/coa.go:31-37 | when all asked NASes refuse, no record changes and nothing is counted |
| ServerSpec.AckIsExactIff | internal/radius/coa.go:139-149 | an answer marks just the sessions of its own host exactly when that host has no colon and is no proper prefix of another colon-free host of the user's active sessions |
| ServerSpec.AllAckStopsIff | internal/radius/coa.go:105-149 | when all NASes acknowledge, exactly the sessions end whose host begins with the host of a registered NAS of an active session, both without colons |
| ServerSpec.DisconnectFrame | internal/radius/coa.go:126-149 | whatever the NASes answer, no session of another user and none that had ended is touched |
| RefreshLaws.RefreshedEntry | internal/radius/service.go:208-244 | after a refresh the keys are exactly the user names read, each with the merge of its last row |
| RefreshLaws.RefreshJoins | internal/radius/service.go:234-243 | a profile is attached exactly when the id in the user's last row names an enabled profile, a package exactly when it exists |
| RefreshLaws.RefreshTakesTheRow | internal/radius/service.go:208-233 | id, name and plan of an entry are those of its last row, so whatever an administrator changed arrives; memory keeps only first login, expiry, larger counters and a disabling |
| RefreshLaws.NasTable | internal/radius/service.go:248-253 | after a refresh the NAS table holds the last enabled NAS of every address just read, and no other address |
| RefreshLaws.RefreshIsIdempotent | internal/radius/service.go:181-253 | merging the same lists twice is merging them once |
| RefreshLaws.RefreshesCommute | internal/radius/service.go:212-233 | two lists merged in either order give the same counters and enabled flags |
| RefreshLaws.RefreshKeepsProgress | internal/radius/service.go:212-225 | a refresh takes the larger of each counter, and a user disabled in memory stays disabled whatever the database says |
| SessionLaws.CleanupIsExact | internal/radius/service.go:294-305 | after a cleanup no active record is older than the cutoff; those that were are stale, stopped and updated now, and all others are as they were |
| SessionLaws.CleanupWrites | internal/radius/service.go:301-301 | the records a cleanup ends are handed to the database as they are then, each once, and no others |
| Freshness.HeardOfIsNotStale | internal/radius/accounting.go:135-135 | a record just started or updated is stale for no earlier cutoff |
| Freshness.CleanupEndsIff | internal/radius/service.go:288-305 | in every run, a cleanup ends exactly the active sessions its process has last heard of before the cutoff; with a clock that does not go backwards, none heard of at the cutoff or later |
| SessionLaws.CleanupCounts | internal/radius/service.go:294-305 | the active count falls by exactly the number cleaned |
| SessionLaws.CleanupTwice | internal/radius/service.go:287-314 | a second cleanup with the same cutoff cleans none |
| SessionLaws.KeptIsActiveIff | internal/radius/service.go:303-312 | the number reported as kept is the number of active sessions exactly when memory held no ended record |
| SessionLaws.ReconcileIsExact | internal/radius/service.go:328-333 | reconciling adds the first row of each new id and changes no record held |
| PopulationLaws.PopulationStep | internal/radius/service.go:208-246 | no step changes who the users are: every cached or listed copy stays a copy of the row of its name |
| Metering.WritesMatchCharges | internal/radius/accounting.go:169-171 | what a step hands to the database is exactly what it charges in memory, and never negative |
| Metering.CachedUsage | internal/radius/service.go:215-220 | per step, a cached counter grows by the charge or takes the larger of cache and row, and stays below the given bound plus the charge |
| Metering.ChargeSurvivesIff | internal/radius/repository.go:226-231 | a pending charge reaches the total exactly when the columns can hold the sums; otherwise it is lost |
| Metering.ChargeIsLostIff | internal/radius/accounting.go:168-171 | from every state: after an update and the statement it hands over, row and pending deltas have grown by the charge exactly when the columns hold the sums, and by nothing otherwise, though the charge stands in memory; a growth beyond 2^31 - 1 seconds is always lost |
| Metering.CountersAreAccountedFor | internal/radius/service.go:210-246 | in every run of any number of processes the row plus all pending deltas is the initial usage plus all charges, and no cached counter exceeds it |
| Ceilings.CountersStayWithinTheTotal | internal/radius/service.go:210-246 | in every run no cached counter and no row exceeds the initial usage plus everything charged, even when the database refuses charges |
| Ceilings.CountersNeverDecrease | internal/radius/service.go:212-220 | along every run no cached counter ever decreases, however stale the lists merged |
| Convergence.EveryRefreshCatchesUp | internal/radius/service.go:181-246 | from every reachable state, in every continuation: the row never falls, and each process that merges a list read since then caches, from then on, at least what the row showed, whatever else is charged, refused or lost |
| Convergence.EveryRefreshConverges | internal/radius/service.go:181-246 | once nothing is pending for a user, in every continuation that charges nothing: each process that merges a list read since then caches, from then on, the initial usage plus everything charged, as the row does |
| Convergence.RoundIsPossible | internal/radius/service.go:181-253 | from every state there is such a continuation in which every process refreshes |
| Conservation.SingleProcessConserves | internal/radius/accounting.go:120-171 | with one process, in every reachable state, the cached counter is the initial usage plus all charges, whatever the database refused, and the row plus the pending deltas while the columns hold it |
| Records.SectionKeepsRecord | internal/radius/accounting.go:121-166 | no step but an accounting update touches a record's counters, and that one touches a single record |
| Records.EveryRecordIsChargedItsPeaks | internal/radius/accounting.go:120-171 | in every run, the metered records are those in memory whose user is cached as a voucher, and each has been charged the peaks of everything reported for it beyond the counter it had when its process began to meter it |
| Records.UsageIsPeaksOfSessions | internal/radius/accounting.go:120-171 | a voucher is charged exactly the sum of those peaks over its metered records, by any number of processes, whenever each of them came to cache it |
| SharedSessions.CopiedRecordEnters | internal/radius/service.go:328-332 | in every run, a reconciled record of a cached voucher is metered from the counters of the first row of its id, in the rest of the run |
| SharedSessions.SharedSessionOvercharge | internal/radius/accounting.go:125-138 | in every run in which a voucher has one session, metered by two processes, from zero and from a copied counter c, the voucher is charged both counters less c, which is true exactly when the smaller counter stands at c |
| SharedSessions.CopiedSessionIsChargedTwice | internal/radius/service.go:318-335 | such a run exists from every state, for any two processes: the growth after the copy is charged twice |
| Enforcement.ExhaustedMeansRejectedForever | internal/radius/auth.go:73-87 | once the cached usage reaches a limit, every request that reads the cache later is rejected, in every continuation of every run |
| SpentEverywhere.SpentIsRejectedEverywhere | internal/radius/service.go:181-246 | from every reachable state in which the row of a voucher is at a limit: every process that merges a list read since then rejects all requests that read its cache later, in every continuation, whatever is still charged, refused or pending |
| SpentEverywhere.SpentTotalIsRejectedEverywhere | internal/radius/service.go:181-246 | the same from the moment nothing is pending and the total charged is at a limit |
| Enforcement.DisabledMeansRejectedForever | internal/radius/service.go:222-225 | once a user is disabled in memory every later request at that process is rejected, and no refresh or statement enables any copy or row again |
| Enforcement.RefusalDisables | internal/radius/auth.go:221-229 | a refused voucher is disabled in memory at once and in its row by the statement handed over |
| Calendar.MergeKeepsPairs | internal/radius/service.go:226-232 | a merge never mixes the first login of one side with the expiry of the other |
| Calendar.CalendarVouchersStayPaired | internal/radius/auth.go:46-65 | from paired rows, in every run, in every cache, list and row, first login and expiry of a calendar voucher are both missing or the limit apart |
| Expiry.AcceptsIff | internal/radius/auth.go:66-71 | an otherwise fine calendar voucher is accepted exactly when the process knows of no first login or the limit has not passed since |
| Expiry.GrantEndsByExpiry | internal/radius/auth.go:194-201 | the Session-Timeout of a calendar voucher ends within the second before its expiry, and is missing on the first login |
| Expiry.MarkMovesIff | internal/radius/auth.go:48-64 | a request moves a cached first login exactly when its own copy has none |
| Expiry.NoAcceptAfterTheLimit | internal/radius/auth.go:66-71 | once a first login is cached and every open request of the voucher carries an expiry no later than the cached one, no accept falls after it in any continuation, and the first login never moves |
| Expiry.LimitHoldsIff | internal/radius/auth.go:34-71 | with open requests that are otherwise fine, the cached limit holds in all continuations exactly when all of them carry such an expiry |
| Expiry.OneAtATimeIsTimely | internal/radius/auth.go:66-71 | when a process handles the voucher's requests one at a time, all its accepts from the first on fall inside the window it caches |
| Expiry.SecondProcessOverstays | internal/radius/auth.go:48-65 | any second process that has not seen the first login accepts the voucher at any later time and starts a new window |
| Expiry.RacingRequestsRestartTheWindow | internal/radius/auth.go:34-71 | from every state with an unused voucher: of two requests that both read it the later one is accepted at any time and makes that the first login |
| Budget.AcceptGrantsTheRest | internal/radius/auth.go:146-193 | an Accept of a prepaid voucher carries the time its copy has not used as its only Session-Timeout exactly when no other is configured |
| Budget.ReplyIsAnswer | internal/radius/auth.go:23-210 | the accept that the results below speak of is given exactly when the step records one for the user, with the same reply |
| Budget.PrepaidTimeIsNeverOverspent | internal/radius/auth.go:186-193 | in every run of any number of processes in which accepts are decided on the total charged and sessions follow one another within their grants, the total never exceeds the limit |
| Budget.OneProcessNeverOverspends | internal/radius/auth.go:34-36 | with one process it is enough that no accept is decided on a copy read before the last charge, and the cache shows the total |
| Overspending.GrantOverspendsIff | internal/radius/auth.go:34-193 | from every state in which an otherwise fine request is accepted, alone or at the end of its pieces: a session of exactly the time granted takes the total beyond the limit by what the copy had missed, so beyond it exactly when the copy shows less than the total |
| Overspending.StaleRequestOverspends | internal/radius/auth.go:34-36 | from every state of a process ready to accept: reading the user, then an update that charges g more seconds, then deciding and a session within its grant ends g seconds above the limit |
| Overspending.LaggingProcessOverspends | internal/radius/auth.go:186-193 | from every state with a second process ready to accept: a charge of g at the first, then one request and its session at the second, ends g seconds above the limit |
| Limits.HitExactlyAtTheLimit | internal/radius/accounting.go:156-163 | in every run of any number of processes an update reports a time limit or data cap only when the total charged has reached it, and with one process exactly when it has, also when the database refuses the charge |
| Limits.TimeHitIff | internal/radius/accounting.go:156-160 | in runs within the grants, any number of processes: the time limit is reported by exactly the updates that bring the total to it where the cache was not behind |
| Lifecycle.EndedSessionsStayEnded | internal/radius/service.go:318-335 | a session a process has seen end is never active there again, whatever upserts land and rows are reconciled |
| SessionRows.RowIsLastLanded | internal/radius/repository.go:298-317 | in every run the row of a session is the last upsert of it that landed |
| SessionRows.RowIsActiveIff | internal/radius/accounting.go:147-147 | that row is active exactly when an active upsert landed after every ended one |
| SessionRows.InOrderRowsStayEnded | internal/radius/accounting.go:140-147 | when upserts land in the order they were spawned and one process holds the session, an ended row never comes back to life |
| SessionRows.LateUpsertRevivesElsewhere | internal/radius/service.go:318-335 | from every state, for any two processes and every new session: start and stop landing in the wrong order, then a reconciliation, leave the session active in the other process and ended in its own |
| Lifecycle.ActiveMeansNoStopTime | internal/radius/accounting.go:140-144 | from rows where it is so, in every run, in memory, lists and rows, a session is active exactly when it has no stop time |
| Lifecycle.RefusedAnswerChangesNothing | internal/radius/coa.go:31-37 | a NAS that refuses leaves the whole cluster as it was |
| Lifecycle.DisconnectEndsSessions | internal/radius/coa.go:21-41 | when every collected NAS has acknowledged or not answered, every session reachable at collection has ended with a stop time, whatever interleaved |
| SimultaneousUse.SessionsAreBounded | internal/radius/auth.go:90-104 | in every run in which each start follows an accept of its own, with at most k accepts waiting for their start, and nothing is reconciled in: fewer than limit + k sessions are active |
| SimultaneousUse.LimitIsKept | internal/radius/auth.go:90-104 | so the limit is kept when each start follows the last accept |
| SimultaneousUse.AcceptIffRoom | internal/radius/auth.go:91-104 | a user who is not refused, voucher or not, is accepted exactly when unlimited or below the limit |
| SimultaneousUse.AcceptsThenStarts | internal/radius/auth.go:90-104 | from every state with room for one, any number k of requests are accepted and then started, each start on an accept of its own; the limit is kept exactly when it had room for all k, so the bound above is reached |
| SharedLimit.TotalIsBounded | internal/radius/auth.go:91-104 | in runs so paced at every process, m processes together hold at most m times (limit + k - 1) active sessions of the user |
| SharedLimit.EveryProcessFills | internal/radius/auth.go:91-104 | from every state with room at each process: a run with one accept and one start at a time leaves each process at the limit, and together they hold it m times |
| Uninterrupted.AuthenticateIsItsPieces | internal/radius/auth.go:23-210 | a request handled alone leads to exactly the state of reading, recording the login, disabling on refusal and deciding, one after the other |
| Uninterrupted.EveryRunIsInPieces | internal/radius/auth.go:23-210 | every state reached with requests handled alone is reached with all of them in pieces |
| FileNames.SortedList | internal/database/postgres.go:46-52 | every listing of the same files, in whatever order, sorts to the same list, in lexicographic order and without new repetitions |
| Migrations.FilesAreNotDirectories | internal/database/postgres.go:46-51 | the names to apply are those of the entries that are no directories, without repetitions when no entry is listed twice |
| Migrations.Store.RunMigrations | internal/database/postgres.go:33-87 | a run commits the files its loop reaches, each script together with its row, and reports success or failure |
| Migrations.RunKeepsPrefix | internal/database/postgres.go:54-86 | a run that starts from a prefix of the list leaves a longer prefix wherever it fails, succeeds only with the whole list, and always when nothing fails |
| Migrations.NothingToDo | internal/database/postgres.go:54-62 | over a complete database a run executes nothing |
| Migrations.ExactlyOnce | internal/database/postgres.go:54-86 | from a fresh database, for any number of overlapping, failing and crashing runs, it holds a prefix of the list, each file once and in order; success means all of it; and then nothing changes any more |
| Migrations.RunIsMoves | internal/database/postgres.go:54-86 | every outcome of the loop, over any database and with any failures, is a sequence of moves of the state machine |
| Tlv.ScanOfEncode | internal/radius/pfsense_vsa.go:60-70 | scanning encoded sub-attributes gives them back in order, whatever bytes follow (section 5.26 of RFC 2865) |
| Tlv.ScanIsMaximal | internal/radius/pfsense_vsa.go:60-70 | on arbitrary bytes the scan reads exactly the longest well-formed beginning |
| Tlv.ReadingIsUnique | internal/radius/mikrotik_vsa.go:72-82 | and that is the only way to read them |
| Tlv.FirstIsFirst | internal/radius/pfsense_vsa.go:66-68 | a search finds the first sub-attribute of the type that is long enough, and fails exactly when there is none |
| Tlv.BigEndianRoundTrip | internal/radius/vsa.go:16-19 | a 32-bit value is read back from its four bytes |
| Vsa.VsaSetUint32 | internal/radius/vsa.go:12-27 | the six bytes built in place are the encoded sub-attribute, and zero adds nothing |
| Vsa.MakeMikrotikVSA | internal/radius/mikrotik_vsa.go:54-60 | values of 1 to 247 bytes are encoded with an exact length byte, and longer ones are refused |
| Vsa.MikrotikVSASetString | internal/radius/mikrotik_vsa.go:38-52 | the packet after a string setter, which replaces or adds the attribute, or leaves the packet alone |
| Vsa.PfSenseVSAGetUint32 | internal/radius/pfsense_vsa.go:50-72 | on any packet the scanner stays in range and returns the first 32-bit value of the vendor and type |
| Vsa.MikrotikVSAGetString | internal/radius/mikrotik_vsa.go:62-84 | on any packet the scanner stays in range and returns the first value of the vendor and type, or nothing |
| Vsa.Uint32RoundTripIff | internal/radius/vsa.go:12-27 | a value sent is the value read exactly when the packet carried no different one of that vendor and type |
| Vsa.StringRoundTripIff | internal/radius/mikrotik_vsa.go:38-84 | likewise for an added string; a set one is always read back |
| Vsa.OnTheWire | internal/radius/mikrotik_vsa.go:54-60 | two attributes byte by byte, with the vendor numbers in place |
| Vsa.LastStringWins | internal/radius/mikrotik_vsa.go:46-47 | of all setters of a reply, each vendor reads exactly what was asked for from the last set string on |
| Vsa.EarlierStringSurvivesIff | internal/radius/auth.go:154-173 | an address pool or rate limit in a reply can be read exactly when no rate limit or group is sent after it |
| Rates.ReadOfFormat | internal/radius/auth.go:313-321 | a rate string reads back as the rate, rounded down by less than 1 Mbit/s, and exactly when below 1 Gbit/s or whole Mbit/s |
| Rates.PairReadsBack | internal/radius/auth.go:232-246 | a pair of rates is sent exactly when one is positive, and both are read back in place |
| Decimal.PrintIsInjective | internal/radius/voucher_service.go:213-213 | different numbers are printed differently |
| Vouchers.VoucherService.GenerateVouchers | internal/radius/voucher_service.go:180-206 | the vouchers returned are the first of the batch, in order, up to the first that fails; the rows inserted are these, and the failed one if only its answer was lost |
| Vouchers.ReturnedAreInsertedIff | internal/radius/voucher_service.go:197-205 | what is returned is exactly what was inserted, also on failure, unless the answer to the last insert was lost |
| Vouchers.VoucherService.GenerateOneVoucher | internal/radius/voucher_service.go:208-264 | one voucher is one row built from package and code, with the cap as octet limit when 32 bits hold it, or nothing at all |
| Vouchers.VouchersFollowPackage | internal/radius/voucher_service.go:208-252 | every voucher returned has the rates, limits and number of users of its package, and the name and password asked for by its place in the batch |
| Vouchers.CustomCodesAreDistinct | internal/radius/voucher_service.go:212-214 | with a custom code and more than one voucher no two codes of a batch are equal |
| Vouchers.ReturnedNamesAreDistinct | internal/radius/voucher_service.go:197-205 | no two returned vouchers share a user name, whatever the codes |
| Vouchers.BatchIsCompleteIff | internal/radius/voucher_service.go:197-258 | an unhindered batch is complete exactly when its codes differ and the octet column can hold the cap |
| Vouchers.CustomBatchIsCompleteIff | internal/radius/voucher_service.go:251-258 | a batch of custom codes is generated in full or not at all, and in full exactly when the cap can be stored |
| Vouchers.EmptyCustomCodeMakesOne | internal/radius/voucher_service.go:209-214 | without a code to suffix at most one voucher of a batch is created |

## Left out

- Enabled: a run has no accounting update whose two octet totals together exceed 2^63 - 1; `Counters.NeverNegativeIffSane` says what the code does with one. Nor has a run an administrator who edits, renames, deletes or re-enables users: `UpdateUser` rewrites usage counters from an earlier read, so the exact results hold for a fixed set of users and plans only.
- CountersAreAccountedFor: like `EveryRefreshConverges`, as long as the initial usage plus everything charged fits the columns of the row; `Metering.ChargeSurvivesIff` says what happens to a charge beyond them.
- CountersNeverDecrease: like the other results over runs that compare counters with totals or limits, as long as that total fits an int64, beyond which the cached counters wrap.
- PrepaidTimeIsNeverOverspent: about a NAS that keeps to the single Session-Timeout of the Accept, and accepts decided on the total; `Overspending` says what happens otherwise. Data caps have no such result, because no Accept of a voucher grants a number of octets.
- NoAcceptAfterTheLimit: speaks of the first login the process caches; between processes `Expiry.SecondProcessOverstays` holds instead.
- HandleAuth: of the attributes of a reply it states the Session-Timeouts; the vendor-specific ones are the subject of `Vsa`, and the others come from descriptive fields.
- HandleAcctStart: takes the new record's id as an input and holds for any; that the id is new is a condition of the cluster's step.
- ListUsers: the rows come each once but in any order, while the statement sorts them by user name.
- MikrotikVSASetString: does not say at which place a replaced attribute stands among the others.
- SetVsa: the place a replaced attribute takes among the others is the packet library's choice and is not modelled; the packet library itself is not part of this model, only the behaviour of its vendor-specific functions that the code relies on.
- Process restart: memory is lost with the process, so all results about memory are per process lifetime.
- Passwords and message authentication: which password belongs to a hash and whether a reply could be signed are inputs; bcrypt, HMAC-MD5 and packet marshalling are not part of this model.
- Random codes, UUIDs and clocks: random codes and passwords are inputs of a batch, a new session id is one not in use, and the time is an input of each step. One reading of the clock stands for the several a handler takes within one critical section.
- Time arithmetic: time.Duration is an unbounded integer of nanoseconds, and the float64 seconds of the remaining calendar time are exact whole seconds.
- Descriptive fields of users and sessions (addresses, rates, station ids, service type) and the reply attributes built from them, except for the vendor-specific ones in `Vsa`.
- `ChangeUserProfile`: it loops like `DisconnectUser` and rewrites only descriptive fields of sessions.
- HTTP handlers, routing, request validation, the `radiusctl` client, configuration and UDP servers: input and output.
- Failed statements other than those a column type or a key refuses: the server ignores the errors of its goroutines, and a lost statement would lose its delta.
- PostgreSQL's row order and locking: a list of users comes in any order, and each statement is atomic.
