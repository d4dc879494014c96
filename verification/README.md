# Verification of the service's protocols and kernels

This project models the parts of the repository whose correctness spans many calls, and
proves what they promise over every input, every run and every interleaving.

- **Event delivery** (`Outbox`, `Dispatch`, `Mailbox`, `Delivery`, `Relay`, `Audit`): the
  transactional outbox with leases and a budget of five attempts, the hand-off to a
  durable mailbox directly or over a JetStream stream, consumption under a savepoint with
  a receipt per event and consumer, and the audit projection as a concrete consumer.
  Crashes, expired leases, lost replies, late arrivals, redelivery and transactions that
  do not commit may happen anywhere.
- **Identity** (`IdentityRows`, `IdentityStore`, `IdentityDatabase`, `IdentityRuns`,
  `IdentityCommits`, `IdentityAccess`, `IdentityLedger`, `IdentityChallenges`,
  `IdentityKeys`): every store transaction, and the application commands split into the read they make without locks
  and the guarded commit that other commands may come before.
- **Organizations** (`Org`): ownership, membership and invitations over whole runs, with
  an invite split into the check it makes without locks and the insert that other commands
  may come before.
- **Attempt limiters** (`Limits`, `LocalLimiter`, `LimiterEdges`, `RedisLimiter`): the
  evicting in-process map and the Redis script, each against an ideal limiter that never
  forgets, with the exact conditions under which they part from it.
- **Password-hash admission** (`HashAdmission`): a semaphore, a counted queue and guards
  that are dropped however a waiter leaves.
- **Log delivery** (`LogDelivery`): writers, a bounded channel, one worker and a close.
- **Provenance** (`Provenance`, `Envelopes`): how scopes and work derive from one another,
  and the wire record that carries work between processes.
- **Kernels** (`Civil`, `Ids`, `Codecs`, with `Text` and `Results`): civil-from-days date
  text, UUID version 7 generation and text form, canonical base64 records and tokens.

Code that changes state is written twice: as a class whose methods run the statements in
the source's order, and as a function that says what they leave. The methods are proved
equal to the functions, and the properties are proved about the functions. A system of
several parties is a function from a sequence of steps to a state; a step that is not
ready does not happen, so a statement about every sequence is one about every
interleaving. A database transaction is one step with one reading of the clock, which
either commits or leaves nothing; its reply may be lost either way. Where a transaction
decides on rows it has not locked, the reading and the writing are two steps.

## Model

The rows from `Outbox.EnqueuedIsClaimable` on say, one operation at a time, exactly when it
takes effect and what it answers or leaves, with the source's constants and names written
out. The rows from `Outbox.Store.Enqueue` to the end name methods of the classes: each says
what the statements of one operation do, in the source's order. What the operations promise
together is stated in the rows before both.

| member | source | states |
|---|---|---|
| Outbox.ClaimEffect | src/shared/events/postgres/mod.rs:71-77 | row by row, what a claim does: spent rows die, the selected one is held for exactly 30 seconds and counted, every other stays as it was |
| Outbox.FailureWaits | src/shared/events/postgres/mod.rs:84-88 | a failed attempt makes the row claimable again exactly 100 milliseconds later, or dead if it was the fifth |
| Outbox.NothingToClaim | src/shared/events/postgres/mod.rs:73-74 | with nothing locked, a claim finds nothing exactly when every row is settled, spent, not yet due or leased |
| Dispatch.Budget | src/shared/events/postgres/mod.rs:71-88 | in every interleaving an event's attempts are its claims, at most five, its publications no more than its attempts, dead means exactly five claims, and five attempts while pending means a lease is held |
| Dispatch.EventStays | src/shared/events/postgres/mod.rs:35-50 | however a run goes on, the stored event never changes, attempts never fall, and sent and dead are final |
| Dispatch.StaleForever | src/shared/events/postgres/mod.rs:71-88 | a token that has lost its row never holds one again |
| Dispatch.StaleChangesNothing | src/shared/events/postgres/mod.rs:84-88 | once a lease is lost, no later acknowledgement or release under its token changes any row |
| Dispatch.ExpiryEndsLease | src/shared/events/postgres/mod.rs:73-74 | an expired lease cannot be used, and being taken over ends it for good |
| Dispatch.OneOwner | src/shared/events/postgres/mod.rs:84-88 | at any moment one token can settle an event and can settle no other |
| Relay.SentMeansDelivered | src/shared/events/postgres/mod.rs:93-106 | a dispatch leaves a row sent exactly when its publication was delivered within the lease, and dead exactly when the fifth attempt failed within it |
| Delivery.DeliverySucceeds | src/shared/events/postgres/mod.rs:89-108 | from every reachable state a row that is claimed, published with an answer and settled within thirty seconds is sent, and its event is in the mailbox or last in the stream |
| Delivery.TransferSucceeds | src/shared/events/jetstream/mod.rs:150-179 | from every reachable state, what stands in the stream reaches the mailbox and is acknowledged by one transfer that commits |
| Delivery.SilenceLeaves | src/shared/events/jetstream/mod.rs:181-225 | a publication without an answer has taken effect, or has not and stays under way |
| Delivery.LateLands | src/shared/events/jetstream/mod.rs:181-225 | whatever is under way may take effect at any later time, after anything else that happened, and is then last in the stream or in the mailbox as it was enqueued |
| Delivery.NothingLost | src/shared/events/jetstream/mod.rs:150-225 | in every run an enqueued event is pending, or sent and then in the mailbox or the stream, or dead after five claims; an acknowledged delivery is in the mailbox; and every copy, also one that arrives after its publisher gave up and its row died or was claimed again, is the enqueued envelope to the letter |
| Delivery.NoConflict | src/shared/events/postgres/mod.rs:51-64 | nothing reaches the mailbox that was not enqueued, and publishing an enqueued event conflicts neither there nor with what the stream holds under its ID, late arrivals included, although the check of a duplicate tells 1 from 1.0 and the database does not |
| Delivery.ReadersSound | src/shared/events/postgres/mod.rs:128-133 | receipts and effects keep their invariants inside the whole delivery system |
| Mailbox.EffectsOnce | src/shared/events/postgres/mod.rs:128-133 | for every run and every event and consumer, effects are committed at most once and exactly when the receipt is processed, dead means exactly five rejected runs and no effect, and the database is what the accepted runs in commit order make of it |
| Mailbox.ConsumesUnlessDone | src/shared/events/postgres/mod.rs:129-130 | in every run, with nothing locked, a consumer finds nothing to do exactly when every event in the mailbox has a receipt of that consumer that is processed, dead, or due only later |
| Audit.HandleWrites | src/domains/audit/mod.rs:134-205 | one run of the audit callback adds at most the record of its own event, which is its translation, and drops or changes none |
| Audit.TranslatesExactly | src/domains/audit/mod.rs:134-162 | an event of one of the six audited types, each written out, becomes a record exactly if its time is whole milliseconds in range and its payload names a principal; of any other type it becomes nothing |
| Audit.HandleAccepts | src/domains/audit/mod.rs:78-97 | at a recording time in range the callback refuses an event exactly if it does not translate: the table takes the record of every event that does |
| Audit.RecordSays | src/domains/audit/mod.rs:134-205 | a supported fact put into an envelope under some work becomes a record of that principal, time, work, cause and origin, and of the initiator by kind and identity |
| Audit.RecordsExact | src/domains/audit/mod.rs:78-97 | in every run the audit records are exactly the translations of the events whose audit receipt is processed |
| Audit.RecordsOfEnqueued | src/domains/audit/mod.rs:134-205 | end to end, every audit record translates the envelope that was enqueued under its event ID |
| Envelopes.WorkSurvives | src/shared/events/mod.rs:151-272 | consistent work written to the wire and read back is the same work |
| Envelopes.WireKept | src/shared/events/mod.rs:151-272 | conversely, an accepted record writes back as itself, with IDs in lower case and empty identities left out |
| Envelopes.OnlyConsistent | src/shared/events/mod.rs:234-272 | only consistent work is accepted from the wire |
| Envelopes.WorkExactly | src/shared/events/mod.rs:199-272 | a wire record is accepted as some work if and only if that work is consistent and writes back as the record, up to the case of IDs and empty identities |
| Envelopes.DecodesExactly | src/shared/events/mod.rs:44-66 | exactly which records decode, and that they are kept as they were but for the case of IDs and empty identities |
| Envelopes.SameExactly | src/shared/events/postgres/mod.rs:35-50 | the database takes two records for the same if and only if they are equal part by part with the payload's numbers by value, however deep they stand; the library also tells how those were written |
| Envelopes.ValidTypes | src/shared/events/mod.rs:79-93 | accepted event types are exactly a prefix, ".v" and a version of one to six digits |
| Envelopes.TypesExactly | src/shared/events/mod.rs:79-93 | where the version is the decimal text of a number from 1 to 999999 and the prefix 1 to 120 letters, digits, dots, dashes and underscores |
| Envelopes.DecodeSettles | src/shared/events/mod.rs:44-66 | an envelope's re-encoded record decodes to that envelope again |
| Envelopes.NewKeeps | src/shared/events/mod.rs:27-66 | a new envelope is accepted exactly for a valid type, a time in range, an object payload and a record of at most 65536 bytes, and keeps what it was given |
| Envelopes.LineageSurvives | src/shared/events/mod.rs:199-272 | the work of every scope a history reaches goes over the wire unchanged |
| Provenance.Lineage | src/shared/provenance/factory.rs:49-147 | every scope or prepared work reached from a root keeps its correlation, origin, attribution and replay, stands as deep as there are child and prepare links, counts attempts from the start of its retry chain, and is accepted unchanged by `restore_scope` or `restore_work` |
| Provenance.Roots | src/shared/provenance/factory.rs:106-171 | a root or replay starts at attempt 1 and depth 0 under its own correlation; a replay never names itself as its source |
| Provenance.Continues | src/shared/provenance/factory.rs:172-198 | a continued boundary adopts the admitted correlation and cause and claims no origin or depth |
| Provenance.RootOpens | src/shared/provenance/factory.rs:106-121 | exactly when a root opens; its generated ID is never at fault |
| Provenance.ChildBlamed | src/shared/provenance/factory.rs:122-134 | exactly which generated IDs a child refuses: those repeating an identity it must not share |
| Provenance.RetryBlamed | src/shared/provenance/factory.rs:138-147 | exactly which generated IDs a retry refuses |
| Provenance.RefusalsCostNothing | src/shared/provenance/factory.rs:77-105 | what can be judged without clock or generator uses neither, and a bad time draws no ID |
| Provenance.EmitMakes | src/shared/provenance/factory.rs:77-105 | a scope handed out carries the generated ID, which is none of the forbidden ones, and passes `restore_scope` |
| IdentityStore.ReplacePasswordDid | src/domains/identity/infra/postgres/mod.rs:379-403 | a replacement moves version and epoch one on together, verifies an unverified account only if it is asked to, keeps everything else, and leaves no challenge outstanding |
| IdentityRuns.SignInProceeds | src/domains/identity/app/command.rs:766-830 | a login goes on to commit exactly for a matched password of an active, verified principal whose deadlines are in range |
| IdentityRuns.RequestProceeds | src/domains/identity/app/command.rs:512-582 | a challenge is requested exactly for an active principal, and for verification only while unverified |
| IdentityRuns.ConfirmProceeds | src/domains/identity/app/command.rs:645-742 | a verification goes on exactly with the password and a challenge that is unused, in time, of the purpose and under the current version |
| IdentityRuns.RecoverProceeds | src/domains/identity/app/command.rs:1061-1111 | a reset goes on exactly with such a reset challenge and a password that policy and blocklist admit and the hasher takes, while version and epoch can move |
| IdentityRuns.ReplaceProceeds | src/domains/identity/app/command.rs:921-984 | a change goes on exactly for the caller's current epoch and password and such a new password, while version and epoch can move |
| IdentityCommits.RefusalsAlike | src/domains/identity/app/command.rs:512-830 | an unknown email, a wrong password and an unverified or suspended account are refused alike, and so are all unusable challenges |
| IdentityCommits.LoginAdmits | src/domains/identity/app/command.rs:766-830 | a login that commits opens a session that is admitted at every time within the idle time from then on |
| IdentityCommits.ChallengeServes | src/domains/identity/app/command.rs:512-582 | an issued challenge can be used exactly from its issue up to its expiry, while its principal is active and the password version has not moved |
| IdentityAccess.AccountsOnward | src/domains/identity/infra/postgres/mod.rs:379-403 | in any continuation email, creation and a verification once made stay, and the version never moves without the epoch |
| IdentityAccess.AdmittedUnderCurrentPassword | src/domains/identity/infra/postgres/mod.rs:541-580 | in every interleaving a session admitted by its token was opened against the password version in force now, by an active and verified principal |
| IdentityAccess.RedeemedUnderCurrentPassword | src/domains/identity/infra/postgres/mod.rs:517-539 | and so was a session that an upgrade ticket redeems, which is also unrevoked and within its deadlines |
| IdentityAccess.AdmittedExactly | src/domains/identity/infra/postgres/mod.rs:541-580 | in every run a resolve admits a session exactly when it is not revoked, its principal is active, verified and of its epoch, and the time is within the idle time of its last admission, or its issue, and within the absolute lifetime |
| IdentityAccess.ActiveStaysIn | src/domains/identity/infra/postgres/mod.rs:541-580 | an active user stays in: after an admission, whatever else is in flight or done that neither logs out, closes, suspends nor resolves that session, it is admitted again at every time within the idle time and the absolute lifetime |
| IdentityAccess.EarlierSessionsNeverReturn | src/domains/identity/infra/postgres/mod.rs:602-733 | after a committed change, reset or logout-all no earlier session is admitted again, by token or ticket, whatever was in flight |
| IdentityAccess.LoggedOutNeverReturns | src/domains/identity/infra/postgres/mod.rs:581-601 | after a logout its session is never admitted again |
| IdentityAccess.ShutForever | src/domains/identity/infra/postgres/mod.rs:541-601 | a revoked or outdated session gains no admission in any continuation |
| IdentityAccess.ExpiredNeverReturns | src/domains/identity/infra/postgres/mod.rs:559-570 | a session turned away for a deadline by a resolve is never admitted again, by token or by ticket, even if the clock steps back |
| IdentityAccess.TicketDeadlineExactly | src/domains/identity/infra/postgres/mod.rs:517-539 | a ticket presented past its session's deadline is turned away and nothing is written, so at another time it redeems if and only if session and ticket are usable then, which takes a clock that has stepped back |
| IdentityAccess.PastNeverReturns | src/domains/identity/infra/postgres/mod.rs:517-580 | past a deadline a session is never admitted again, turned away or not, while no clock reads earlier than that |
| IdentityAccess.AdmissionTimes | src/domains/identity/domain/session.rs:84-110 | a session's admissions never go back, all lie from issue up to the absolute lifetime, and follow one another within the idle time |
| IdentityAccess.SessionsRestore | src/domains/identity/domain/session.rs:57-77 | every stored session restores, with no assumption on clocks |
| IdentityAccess.VersionWithinEpoch | src/domains/identity/app/command.rs:368-378 | the password version never exceeds the epoch, so the epoch's ceiling is met first |
| IdentityLedger.FaithfulLedger | src/domains/identity/app/command.rs:368-420 | per principal the outbox holds one password-changed fact for each version from 2 to the current and one sessions-revoked fact for each epoch from 2 to the current, and none besides |
| IdentityChallenges.OneAtATime | src/domains/identity/infra/postgres/mod.rs:335-355 | at most one outstanding challenge per principal and purpose, and every challenge and ticket row restores |
| IdentityChallenges.SingleUse | src/domains/identity/infra/postgres/mod.rs:356-377 | a challenge is consumed by at most one commit, from issue up to expiry and under its own password version; a ticket is redeemed at most once, within thirty seconds, and consuming it again always fails |
| IdentityChallenges.NoneOutlivesReplacement | src/domains/identity/infra/postgres/mod.rs:379-403 | no challenge issued before a committed replacement is consumed after it, whatever was in flight |
| IdentityKeys.KeysUnique | src/domains/identity/infra/postgres/mod.rs:448-515 | in every run a lookup by email or by token digest finds at most one row |
| IdentityRows.ChallengeRows | src/domains/identity/infra/postgres/migrations/0001_identity.sql:38-51 | the challenge table admits exactly the rows the domain restores |
| IdentityRows.ChallengeMoves | src/domains/identity/domain/challenge.rs:77-105 | a consumed or invalidated challenge still restores, keeps what it was, and can never be consumed |
| IdentityRows.TicketRows | src/domains/identity/infra/postgres/migrations/0002_upgrade_tickets.sql:5-8 | the ticket table admits exactly the rows the domain restores |
| IdentityRows.TicketMoves | src/domains/identity/domain/upgrade_ticket.rs:67-80 | a consumed ticket still restores and can never be consumed again |
| IdentityRows.SessionRows | src/domains/identity/infra/postgres/migrations/0001_identity.sql:24-36 | the session table admits exactly the rows the domain restores |
| IdentityRows.SessionMoves | src/domains/identity/domain/session.rs:100-122 | touching and revoking keep a session restorable and its absolute deadline fixed |
| IdentityRows.TouchesExactly | src/domains/identity/domain/session.rs:84-110 | a session that may be used now is touched, may then be used exactly for the idle time from now up to its absolute deadline, and nothing else about it changes |
| Org.OneOwner | src/domains/org/infra/postgres/mod.rs:70-106 | in every interleaving an organization has exactly one owner, its founder, who never changes |
| Org.AdminsFromOwner | src/domains/org/infra/postgres/mod.rs:247-366 | every admin was made one by an act of that owner, whatever came between an invite's check and its insert |
| Org.Tidy | src/domains/org/infra/postgres/mod.rs:247-328 | in every interleaving of checks, inserts and acceptances there is one membership per organization and principal and one pending invitation per organization and invitee, every accepted invitation has its membership, and a pending one is for a member exactly when an acceptance for the same organization and invitee committed between its check and its insert |
| Org.AcceptExactly | src/domains/org/infra/postgres/mod.rs:279-328 | in a run an invitation is accepted exactly when it is the caller's, pending, in time and not overtaken in that way, and then the caller had no membership yet and gets the invited role; an overtaken one answers that the caller is a member; past expiry it is revoked, before its creation nothing happens |
| Org.ChecksExactly | src/domains/org/infra/postgres/mod.rs:247-264 | in roles written out, an invite goes on exactly if its row restores, the invitee is no member, and the inviter is an owner, or an admin inviting a member; and which refusal is answered otherwise |
| Org.ChangesExactly | src/domains/org/infra/postgres/mod.rs:330-365 | in roles written out, a role changes exactly if the target is a member, not the owner, with another role, and the actor is an owner, or an admin who does not make admins; and which outcome is answered otherwise |
| Org.InvitesExactly | src/domains/org/app.rs:377-422 | a whole invite goes on exactly under these conditions on its input, its time and the roles, and then runs for seven days |
| Org.OvertakenShows | src/domains/org/infra/postgres/mod.rs:247-328 | from any run with an invite under way for somebody who has a pending invitation, accepting that one and then inserting leaves a pending invitation for a member, which no acceptance can use |
| Org.MemberLeftInvited | src/domains/org/infra/postgres/mod.rs:247-328 | such runs exist: a founder, two invites to one principal, one acceptance between the second check and its insert |
| LocalLimiter.ConfiguredHits | src/domains/identity/infra/local/mod.rs:81-113 | an accepted configuration counts with positive limits, and with windows that last exactly if no duration is below a millisecond |
| LocalLimiter.EvictionInvisible | src/domains/identity/infra/local/mod.rs:145-149 | dropping expired windows leaves exactly the windows still running |
| LocalLimiter.EvictionExactly | src/domains/identity/infra/local/mod.rs:145-149 | an eviction is invisible at a time exactly if no window it drops would run then |
| LocalLimiter.AdmitTracks | src/domains/identity/infra/local/mod.rs:165-196 | after a call the store tracks the full history, and it answers full exactly when live keys and new ones exceed the limit |
| LocalLimiter.NeverOverMax | src/domains/identity/infra/local/mod.rs:145-149 | the map never exceeds its key limit |
| LocalLimiter.LocalIsIdeal | src/domains/identity/infra/local/mod.rs:130-196 | the in-process limiter answers as one that never forgets, up to and including the first answer of full, while no call comes before the end of a window an earlier eviction dropped and the counters can hold what the call counts |
| LocalLimiter.InOrderTimely | src/domains/identity/infra/local/mod.rs:130-196 | times that never step back meet that condition, whatever is dropped |
| LimiterEdges.IdealExactly | src/domains/identity/infra/local/mod.rs:130-196 | after any such run the limiter answers every further call at a time as the ideal one if and only if nothing dropped would still run at that time |
| LocalLimiter.AtMostTwice | src/domains/identity/infra/local/mod.rs:154-163 | a key is permitted at most twice its attempts in any interval one window long, for windows that last and limits below 4294967295 |
| LocalLimiter.AtMostPerWindow | src/domains/identity/infra/local/mod.rs:154-163 | and at most its attempts in any one window, however the store filled |
| LimiterEdges.TwiceExactly | src/domains/identity/infra/local/mod.rs:81-163 | the bound of twice the attempts holds over all runs, for an interval of one window or of a millisecond, if and only if the window lasts a millisecond at least and the limit is below 4294967295 |
| LimiterEdges.PerWindowExactly | src/domains/identity/infra/local/mod.rs:81-163 | and so does the bound of the attempts in one window |
| LocalLimiter.PermittedCallWithin | src/domains/identity/infra/local/mod.rs:165-196 | a permitted call is within every bucket it hits that has a limit below 4294967295 |
| LimiterEdges.RefusesExactly | src/domains/identity/infra/local/mod.rs:81-163 | some run in time order ends with a bucket refusing if and only if its window lasts a millisecond at least and its limit is below 4294967295; a duration below a millisecond is accepted and limits nothing |
| LimiterEdges.EmptyWindowRefusesWhenTimeStepsBack | src/domains/identity/infra/local/mod.rs:130-163 | once the clock steps back even such a window refuses |
| LimiterEdges.SaturationExactly | src/domains/identity/infra/local/mod.rs:154-163 | a one-bucket call that finds room is answered ideally if and only if its hit can still be counted |
| LimiterEdges.BurstParts | src/domains/identity/infra/local/mod.rs:154-163 | the history length at which the two part: the ideal limiter refuses once the limit is reached, this one too unless the limit is 4294967295; in a window below a millisecond both permit everything |
| LimiterEdges.RetryAfterHolds | src/domains/identity/infra/local/mod.rs:130-164 | the wait a refused key is told is exact: it is refused until then, whenever it asks, and not from then on |
| LimiterEdges.EvictionShowsWhenTimeStepsBack | src/domains/identity/infra/local/mod.rs:145-149 | a run with a clock that steps back, where the limiter permits what the ideal one with the same key limit makes wait |
| Limits.PerWindow | src/domains/identity/infra/local/mod.rs:154-163 | at most the allowed attempts of a key are within limit in one window of the ideal limiter, even if the clock steps back |
| Limits.PermittedWithin | src/domains/identity/infra/local/mod.rs:165-196 | a call the ideal limiter permits is within every bucket it hits |
| Limits.CountsHits | src/domains/identity/infra/local/mod.rs:130-164 | while windows last, a window's count is the number of attempts made in it |
| Limits.RefusedExactly | src/domains/identity/infra/local/mod.rs:154-163 | an attempt is refused exactly when its key's window runs and has had its attempts, and is told the rest of that window |
| Limits.RetryAfterExactly | src/domains/identity/infra/local/mod.rs:154-163 | a refused key is refused until the wait it was told is over, and not from then on |
| RedisLimiter.ScriptIdeal | src/domains/identity/infra/redis/mod.rs:117-161 | one run of the script answers as the ideal limiter and tracks its history |
| RedisLimiter.RedisIsIdeal | src/domains/identity/infra/redis/mod.rs:117-161 | the script answers as the ideal limiter until it is full, while no call comes before the end of a window it has dropped |
| RedisLimiter.RunTracks | src/domains/identity/infra/redis/mod.rs:117-161 | after any such run what is stored is all there is to know at a time if and only if nothing dropped would still run then |
| RedisLimiter.PermittedCallWithin | src/domains/identity/infra/redis/mod.rs:117-161 | a call the script permits is within every bucket it hits |
| RedisLimiter.InOrderTimely | src/domains/identity/infra/redis/mod.rs:117-161 | times that never step back meet that condition |
| RedisLimiter.SameHits | src/domains/identity/infra/redis/mod.rs:288-326 | both limiters build the same buckets exactly when the source is given or the operation has no source limit |
| RedisLimiter.AllAgree | src/domains/identity/infra/redis/mod.rs:288-326 | in-process limiter, script and ideal limiter return the same answer on every comparable sequence of requests until one is full |
| HashAdmission.Bounded | src/domains/identity/password_hash/mod.rs:151-191 | in every interleaving running hashes stay within the permits, true waiters within the queue, and the counter equals the live guards |
| HashAdmission.NothingLeaks | src/domains/identity/password_hash/mod.rs:123-130 | when all tasks are done every permit and queue place is back, after timeouts, abandoned futures and panics alike |
| HashAdmission.NoIdlePermit | src/domains/identity/password_hash/mod.rs:151-176 | nobody waits while a permit is free |
| HashAdmission.RefusedWhenFull | src/domains/identity/password_hash/mod.rs:155-163 | a newcomer is refused exactly when the live guards it counted fill the queue |
| HashAdmission.FirstComeFirstServed | src/domains/identity/password_hash/mod.rs:151-176 | in every interleaving a permit goes to the head of the line only, and those left in the line keep their order |
| HashAdmission.OutcomesMean | src/domains/identity/password_hash/mod.rs:151-191 | in every interleaving a finished task's outcome is what happened to it: hashed, panicked, refused on arrival, timed out or abandoned |
| LogDelivery.Conserved | src/shared/logger/delivery.rs:34-99 | offered records are sent or counted as dropped; sent ones are written, failed, in hand, queued or lost to a crash; the queue is within capacity and the sink has the sent records in order |
| LogDelivery.CloseMeansWritten | src/shared/logger/delivery.rs:108-128 | a successful close on an active sink means every sent record was written in order and the flush succeeded |
| LogDelivery.CloseFailsOnlyOnFailure | src/shared/logger/delivery.rs:123-127 | once done, a close fails exactly if a write, the flush or another step had failed |
| LogDelivery.CrashedStays | src/shared/logger/delivery.rs:49-64 | after a crashed worker no close succeeds |
| LogDelivery.StoppedFinishes | src/shared/logger/delivery.rs:51-64 | from every reachable state a living worker whose sender is gone can finish without anybody's help, with everything in hand and queued written in order |
| LogDelivery.StoppedStays | src/shared/logger/delivery.rs:74-98 | once stopped nothing more is sent, whatever else happens, and stopping drops nothing |
| Civil.CivilCounts | src/domains/identity/infra/smtp/mod.rs:107-122 | for every integer day the computed date is valid and its day count is that day |
| Civil.CivilStep | src/domains/identity/infra/smtp/mod.rs:112-120 | one day on is the next day of the calendar |
| Civil.CivilOrder | src/domains/identity/infra/smtp/mod.rs:112-120 | later days give later dates |
| Civil.YearOfEraFound | src/domains/identity/infra/smtp/mod.rs:115-116 | the closed forms find the year and day of year of every day of an era |
| Civil.IsoOrder | src/domains/identity/infra/smtp/mod.rs:107-122 | later times print later text, so no two times share a text |
| Civil.IsoReads | src/domains/identity/infra/smtp/mod.rs:107-122 | every time in range prints as dashes, T, colons, point and Z around the digits of a valid date and clock, which counted back give that very millisecond |
| Civil.IsoLength | src/domains/identity/infra/smtp/mod.rs:107-122 | every time in range prints in 24 characters |
| Ids.Parse | src/shared/id/value.rs:20-42 | accepts exactly the texts that denote a UUID of the standard variant, and gives that UUID |
| Ids.Print | src/shared/id/value.rs:75-85 | writes the canonical text |
| Ids.PrintThenParse | src/shared/id/value.rs:75-85 | printing and parsing give the ID back |
| Ids.ParseThenPrint | src/shared/id/value.rs:20-42 | parsing and printing give the text back in lower case |
| Ids.TextFollowsBytes | src/shared/id/value.rs:5-6 | IDs sort as text the way they sort as bytes |
| Ids.PackCarries | src/shared/id/value.rs:59-67 | a packed ID is of version 7 and carries its time and counter |
| Ids.RunIncreases | src/shared/id/v7.rs:33-66 | all IDs of one generator strictly increase as bytes and as text, across clock rollback and failures |
| Ids.RefusalChangesNothing | src/shared/id/v7.rs:33-66 | a refused call leaves the run as if it had not been made |
| Ids.IssuesExactly | src/shared/id/v7.rs:33-66 | exactly when a call is refused and why; otherwise its ID carries 62 random bits and the next counter, or a random one of eleven bits if the millisecond is fresh |
| Ids.MillisRecovered | src/shared/id/value.rs:49-58 | an ID tells the millisecond it was issued for |
| Ids.FreshMillisecondYields | src/shared/id/v7.rs:59-61 | each fresh millisecond yields at least 2049 IDs |
| Codecs.DecodeEncoded | src/domains/identity/password_hash/mod.rs:87-93 | decoding an encoding gives the bytes back |
| Codecs.EncodeDecoded | src/domains/identity/token_codec/mod.rs:79-83 | what the strict decoder accepts is the canonical encoding of what it gives |
| Codecs.EncodesNumbers | src/domains/identity/token_codec/mod.rs:60-63 | group by group the symbols are the digits in base 64 of the bytes' number, filled up with zero bits |
| Codecs.RecordExact | src/domains/identity/password_hash/mod.rs:94-122 | a record is accepted exactly when it is the encoding of one salt and tag, which it gives back |
| Codecs.RecordIsJoined | src/domains/identity/password_hash/mod.rs:116-122 | an encoded record is its five fields and 97 characters long |
| Codecs.DigestExact | src/domains/identity/token_codec/mod.rs:65-85 | a token is digested exactly when it is the text of 32 bytes, and then those bytes are |
| Codecs.IssueThenDigest | src/domains/identity/token_codec/mod.rs:49-85 | digesting an issued secret gives the issued digest |
| Codecs.DigestsSeparate | src/domains/identity/token_codec/mod.rs:34-40 | with a collision-free hash a digest answers for one purpose and one secret |
| Outbox.EnqueuedIsClaimable | src/shared/events/postgres/mod.rs:32-50 | a new event can be claimed from the very moment it is enqueued and not before; one already there stays as it is, and a different one under its ID is refused |
| Outbox.ClaimRunsOut | src/shared/events/postgres/mod.rs:71-77 | a claim holds its row for its own token alone and for thirty seconds exactly; from then on the row can be claimed again, or buried if that was its fifth attempt |
| Outbox.ClaimsOldest | src/shared/events/postgres/mod.rs:74 | no other claimable row was available earlier than the one claimed, and of those as early it has the smallest ID as text |
| Delivery.AnswersCounted | src/shared/events/jetstream/mod.rs:181-225 | the broker's answers that count as a publication: that it stored the event, or holds equal JSON under its ID; silence never does |
| Mailbox.ReceiptsStay | src/shared/events/postgres/migrations/0003_mailbox_receipts.sql:3-13 | consuming leaves every other receipt as it was, and gives each event that had none one that is due from that moment on |
| Mailbox.RunWaits | src/shared/events/postgres/mod.rs:131-132 | an accepted run is the last one; a rejected one takes the database back, and is due again exactly 100 milliseconds later or, as the fifth, dead |
| Mailbox.ConsumesOldest | src/shared/events/postgres/mod.rs:130 | no other open receipt was due earlier than the one consumed, and of those as early it has the smallest event ID as text |
| Envelopes.WireNames | src/shared/events/mod.rs:151-233 | the name each actor kind, origin, reference kind and correlation source has on the wire |
| Provenance.RootSays | src/shared/provenance/factory.rs:106-121 | every field of the scope a root opens |
| Provenance.ReplaySays | src/shared/provenance/factory.rs:148-171 | every field of the scope a replay opens, with what it repeats and its run |
| Provenance.EntrySays | src/shared/provenance/factory.rs:172-198 | every field of the scope of a continued boundary |
| Provenance.ChildSays | src/shared/provenance/factory.rs:122-134 | a child runs new work under its own or the given ID, operation and cause, the parent's scope being the cause if none is given, one deeper, and otherwise as the parent's |
| Provenance.PreparedSays | src/shared/provenance/factory.rs:49-72 | prepared work is derived in that same way, under the ID it is given |
| Provenance.RepeatsSay | src/shared/provenance/factory.rs:135-147 | an execution takes the work as it is and names no attempt before; a retry takes it too, one attempt on, and names the scope before |
| Provenance.DerivesExactly | src/shared/provenance/factory.rs:49-72 | from a scope with whole work new work can be derived exactly when its ID is not the parent's, the depth can grow, and neither cause nor replayed source is that work itself |
| Provenance.AcceptsTimes | src/shared/provenance/scope.rs:22-31 | the times that can be stamped: from 1970 on, while the milliseconds fit 48 bits |
| IdentityCommits.SignUpCommits | src/domains/identity/app/command.rs:444-505 | a registration whose first half succeeds commits exactly for a new principal, email, challenge and event, with texts of storable length |
| IdentityCommits.SignOutsAsk | src/domains/identity/app/command.rs:844-898 | a logout asks for the caller's own session, a logout-all for the epoch after the caller's, with the facts they report |
| IdentityCommits.ConfirmAsks | src/domains/identity/app/command.rs:696-742 | a verification asks to consume its challenge under the version in force, and reports the principal and the challenge |
| IdentityCommits.ReplaceAsks | src/domains/identity/app/command.rs:921-984 | a change asks under the version and epoch in force, and reports the next of both and why |
| IdentityCommits.RecoverAsks | src/domains/identity/app/command.rs:1061-1111 | so does a reset, which verifies the account only if it was not verified |
| IdentityCommits.TicketAsks | src/domains/identity/app/command.rs:1016-1043 | a ticket is asked for the caller's session and epoch, for thirty seconds exactly |
| IdentityCommits.LoginCommits | src/domains/identity/infra/postgres/mod.rs:483-497 | a login commits exactly for an active, verified principal under the expected version and epoch, and a session and event that are new |
| IdentityCommits.LogoutCommits | src/domains/identity/infra/postgres/mod.rs:581-601 | a logout of the principal's live session commits exactly from its last activity on; of any other session it changes nothing |
| IdentityCommits.LogoutAllCommits | src/domains/identity/infra/postgres/mod.rs:602-620 | a logout-all commits exactly under the expected epoch, below the last |
| IdentityCommits.IssueCommits | src/domains/identity/infra/postgres/mod.rs:621-648 | a challenge is issued exactly under the expected version, if no outstanding one of the purpose was issued later and it is new |
| IdentityCommits.VerifyCommits | src/domains/identity/infra/postgres/mod.rs:649-661 | a verification commits exactly under the expected version with an unused verification challenge of the principal, from its issue up to its expiry |
| IdentityCommits.ChangeCommits | src/domains/identity/infra/postgres/mod.rs:662-693 | a change commits exactly under the expected version and epoch, neither at its end |
| IdentityCommits.ResetCommits | src/domains/identity/infra/postgres/mod.rs:694-732 | a reset commits exactly under the same conditions with such an unused reset challenge |
| IdentityCommits.TicketCommits | src/domains/identity/infra/postgres/mod.rs:498-515 | a ticket is issued exactly to a live session of the expected epoch of an active, verified principal |
| Org.AcceptAnswers | src/domains/org/infra/postgres/mod.rs:279-328 | which answer an invitee that does not join is given |
| Org.InsertsExactly | src/domains/org/infra/postgres/mod.rs:265-277 | an invitation is inserted exactly if no pending one of the same invitee and no row of its ID is in the way |
| Org.InviteRefusals | src/domains/org/app.rs:377-422 | which refusal the caller of an invite is told, in the order they are found |
| Org.CreatesExactly | src/domains/org/infra/postgres/mod.rs:59-106 | organization and owner are stored exactly if both are valid and belong together, their IDs are free and the owner is no member yet; a taken ID is told apart from that |
| Org.FoundsExactly | src/domains/org/app.rs:308-358 | an organization is founded exactly for an eligible owner and a valid name and time, with both records as given |
| Org.PromotesExactly | src/domains/org/app.rs:462-484 | a role change is refused without reading exactly for a missing ID, for oneself, or for making an owner |
| Org.InvitationRows | src/domains/org/infra/postgres/migrations/0007_org_membership_workflow.sql:4-17 | the domain restores exactly the invitations their table admits, apart from those with a zero ID |
| Org.OrganizationRows | src/domains/org/infra/postgres/migrations/0006_org.sql:1-12 | the domain takes the organizations and memberships their tables admit, apart from zero IDs and from names with control characters or of spaces only |
| LocalLimiter.AcceptsPolicies | src/domains/identity/infra/local/mod.rs:90-105 | a policy is accepted exactly for 1 to 4294967295 attempts and a duration that is not zero, of at most 2^62 - 1 whole milliseconds |
| LocalLimiter.DefaultLimits | src/domains/identity/infra/local/mod.rs:42-62 | the limits in force by default, operation by operation, and that they are accepted |
| LogDelivery.WritesExactly | src/shared/logger/delivery.rs:80-98 | a record is queued exactly if it fits, the sender is open, the worker lives and the channel has room, and is counted as dropped otherwise |
| Codecs.Alphabets | src/domains/identity/password_hash/mod.rs:86-93 | the two alphabets, symbol by symbol, as RFC 4648 lists them in Tables 1 and 2 |
| Codecs.PurposeNames | src/domains/identity/domain/token.rs:23-30 | the text hashed for each purpose |
| Mailbox.ConsumerNames | src/shared/events/postgres/mod.rs:118-126 | which consumer names are valid |
| Audit.AddsExactly | src/domains/audit/mod.rs:78-97 | which records the table takes, and that the first record of an event stays |
| Provenance.NamesExactly | src/shared/provenance/actor.rs:6-31 | which actors there are: nobody, or a kind with a name of 1 to 128 characters |
| Provenance.OperationsExactly | src/shared/provenance/operation.rs:6-17 | which operation names are valid |
| Provenance.AttributionsExactly | src/shared/provenance/attribution.rs:17-32 | who may act for whom, and which tenants are valid |
| Provenance.ConsistentExactly | src/shared/provenance/work.rs:42-71 | work is consistent exactly if replay and origin agree, it is neither its own cause nor its own replayed source, and its cause fits its depth |
| Provenance.ScopesExactly | src/shared/provenance/scope.rs:47-74 | exactly which scopes restore, and to which time |
| Provenance.EntersExactly | src/shared/provenance/factory.rs:172-198 | exactly why a continued boundary is refused |
| Provenance.ReplaysExactly | src/shared/provenance/factory.rs:148-171 | exactly why a replay is refused |
| IdentityCommits.RedeemsExactly | src/domains/identity/infra/postgres/mod.rs:517-539 | a ticket redeems exactly while unused and in time for a live session of an active, verified principal; it is then used up, and a refusal writes nothing |
| IdentityCommits.ResolvesNothing | src/domains/identity/infra/postgres/mod.rs:541-580 | what a resolve answers without a session, without its principal or with a clock out of range |
| IdentityCommits.LogoutAnswers | src/domains/identity/infra/postgres/mod.rs:581-601 | what a logout is told of the session it names |
| IdentityCommits.PasswordRefusals | src/domains/identity/app/command.rs:921-1111 | what a caller is told whose new password or session does not do |
| IdentityRows.EpochsExactly | src/domains/identity/domain/auth_state.rs:20-48 | the next epoch, and which refusal there is otherwise |
| Org.ResolvesExactly | src/domains/org/domain/mod.rs:196-244 | an invitation is accepted or revoked only while pending, accepted up to its expiry and revoked also after it |
| Org.AcceptRefusals | src/domains/org/app.rs:428-438 | an acceptance is refused without reading exactly for a missing ID, then for a clock out of range |
| Org.FoundRefusals | src/domains/org/app.rs:328-357 | which refusal a founder is told, in the order they are found |
| LocalLimiter.AcceptsConfigs | src/domains/identity/infra/local/mod.rs:84-112 | which configurations are accepted |
| LocalLimiter.HitsExactly | src/domains/identity/infra/local/mod.rs:165-196 | a call counts the subject's bucket under the subject's key, then the source's under the source's, in whole milliseconds |
| LocalLimiter.EndsExactly | src/domains/identity/infra/local/mod.rs:154-163 | a window's end saturates at the largest 64-bit number |
| LogDelivery.ClosesExactly | src/shared/logger/delivery.rs:107-128 | what a close answers, in order |
| LogDelivery.PanicLoses | src/shared/logger/delivery.rs:51-64 | a worker that panics in a write or a flush takes what it holds and what is queued with it |
| Outbox.Store.Enqueue | src/shared/events/postgres/mod.rs:32-50 | the first envelope under an ID stays as stored; an equal repeat is accepted, a different one refused, and neither changes the row |
| Outbox.Store.Claim | src/shared/events/postgres/mod.rs:71-77 | buries the spent rows, then leases the first claimable unlocked row by availability and ID for 30 seconds and counts the attempt; with none to claim nothing is leased |
| Outbox.Store.Finish | src/shared/events/postgres/mod.rs:84-88 | settles a row only for the token that holds its unexpired lease; success is sent, failure pending again or dead on the fifth attempt |
| Relay.Dispatch | src/shared/events/postgres/mod.rs:89-108 | one whole dispatch: the claimed row is settled by the publisher's reply, a missing or mismatched receipt releases it, and a lease that ran out is reported and changes nothing |
| Relay.Broker.Publish | src/shared/events/jetstream/mod.rs:181-225 | a receipt is given exactly when the broker stored the event or recognised one whose stored JSON is equal, number spelling included; another value is a conflict |
| Relay.Broker.Transfer | src/shared/events/jetstream/mod.rs:150-179 | a delivery is acknowledged only once the mailbox holds its event |
| Mailbox.Store.Publish | src/shared/events/postgres/mod.rs:51-64 | keeps the first envelope of an ID, accepts an equal repeat, refuses another |
| Mailbox.Store.Consume | src/shared/events/postgres/mod.rs:111-138 | registers receipts for all mail, selects the first due unlocked one, and marks it by the callback's reply; a rejected callback's changes are rolled back to the savepoint while the mark stays |
| Audit.Table.Add | src/domains/audit/mod.rs:78-97 | refuses a malformed record and keeps the first record of an event |
| Provenance.Factory.EmitScope | src/shared/provenance/factory.rs:77-105 | the scope handed out or the refusal, and how often clock and generator were used |
| Provenance.Factory.Child | src/shared/provenance/factory.rs:122-134 | a child opens as its specification says, using the clock and generator no more than that |
| Provenance.Factory.Retry | src/shared/provenance/factory.rs:138-147 | a retry opens as its specification says, and not past the last attempt number |
| IdentityDatabase.Store.RegisterPrincipal | src/domains/identity/infra/postgres/mod.rs:448-482 | principal, first challenge and event are inserted together, or nothing with a duplicate told apart |
| IdentityDatabase.Store.Login | src/domains/identity/infra/postgres/mod.rs:483-497 | a session is inserted only under the expected version and epoch of an active, verified principal |
| IdentityDatabase.Store.Logout | src/domains/identity/infra/postgres/mod.rs:581-601 | a live session is revoked with its event; absent and inactive ones are told apart and change nothing |
| IdentityDatabase.Store.LogoutAll | src/domains/identity/infra/postgres/mod.rs:602-620 | the epoch moves one on from the expected one, or nothing changes |
| IdentityDatabase.Store.Issue | src/domains/identity/infra/postgres/mod.rs:621-648 | earlier challenges of the purpose are invalidated and the new one inserted, or nothing changes |
| IdentityDatabase.Store.Verify | src/domains/identity/infra/postgres/mod.rs:649-661 | a consumable challenge is consumed, the credential verified once, the event enqueued, or nothing changes |
| IdentityDatabase.Store.Change | src/domains/identity/infra/postgres/mod.rs:662-693 | under the expected version and epoch the password is replaced and both events enqueued, or nothing changes |
| IdentityDatabase.Store.Reset | src/domains/identity/infra/postgres/mod.rs:694-732 | as a change, after consuming the reset challenge, or nothing changes |
| IdentityDatabase.Store.AddTicket | src/domains/identity/infra/postgres/mod.rs:498-515 | a ticket is issued only to a live session of the current epoch |
| IdentityDatabase.Store.UseTicket | src/domains/identity/infra/postgres/mod.rs:517-539 | a ticket admits its live session once and is used up |
| IdentityDatabase.Store.ResolveSession | src/domains/identity/infra/postgres/mod.rs:541-580 | a session is admitted and touched, or turned away, and an observed deadline is latched as a revocation |
| Org.Store.Create | src/domains/org/infra/postgres/mod.rs:70-106 | organization and owner are inserted together or not at all |
| Org.Store.Check | src/domains/org/infra/postgres/mod.rs:247-264 | who may invite whom to what, and which refusal comes first |
| Org.Store.Insert | src/domains/org/infra/postgres/mod.rs:265-277 | nothing is inserted over a pending invitation of the same invitee |
| Org.Store.Accept | src/domains/org/infra/postgres/mod.rs:279-328 | membership and acceptance are written together, or the invitation is revoked, or nothing changes |
| Org.Store.Change | src/domains/org/infra/postgres/mod.rs:330-365 | a role is changed by an owner, or by an admin short of making admins, and never an owner's |
| LocalLimiter.Limiter.Count | src/domains/identity/infra/local/mod.rs:130-164 | counts one hit, evicting expired windows only for a new key in a full store |
| LocalLimiter.Limiter.AdmitNow | src/domains/identity/infra/local/mod.rs:165-196 | the buckets of a call are counted in order and the longest wait is answered |
| RedisLimiter.Redis.Eval | src/domains/identity/infra/redis/mod.rs:117-161 | the script run on its sorted set and hash leaves and answers what its specification says |
| RedisLimiter.Redis.CountNew | src/domains/identity/infra/redis/mod.rs:126-136 | counts the distinct fields that are not yet stored |
| HashAdmission.Hasher.CheckPosition | src/domains/identity/password_hash/mod.rs:157-165 | the position decides between refusal, a free permit and the line |
| HashAdmission.Hasher.DropFuture | src/domains/identity/password_hash/mod.rs:123-130 | an abandoned waiter leaves the line, and a permit already granted goes to the next |
| LogDelivery.Pipe.Drain | src/shared/logger/delivery.rs:51-62 | the worker's loop writes every queued record in turn, then flushes and sets done |
| LogDelivery.Pipe.TrySend | src/shared/logger/delivery.rs:80-99 | an oversized record, a full channel or a closed sender drops the record, otherwise it is queued last |
| Ids.Generator.NewId | src/shared/id/v7.rs:33-66 | what one call returns and leaves, for every clock reading and entropy reply |

## Left out

- The SQL engine: tables are maps of rows, a transaction is one atomic step with one clock reading, and rows locked by others are an arbitrary set that a selection skips. Within a transaction only the unlocked readings of an invite and of the identity commands are steps of their own.
- Org.Store.Check: the row lock an invite holds on its inviter's membership until it commits is not modelled; the runs proved about include those in which that role changes meanwhile.
- RedisLimiter.RedisIsIdeal: windows last a millisecond at least, as the limiter's own fifteen minutes do; times are below 2^53, where the script's numbers are exact; overflow of the hash counter and failures of the connection are left out.
- RedisLimiter.AllAgree: requests name a source where the operation limits sources; without one the two limiters count different buckets, as RedisLimiter.SameHits says.
- HashAdmission.RefusedWhenFull: the converse for true waiters is not claimed, since a refusal may count another refuser's passing increment.
- Delivery.NothingLost: the stream keeps its messages and its consumer may redeliver any of them any number of times, and a publication given up may arrive any number of times; retention, delivery limits and progress are not modelled.
- Audit.RecordsOfEnqueued: events enter the mailbox only by dispatch or transfer; mail written by other programs is not modelled.
- Mailbox.EffectsOnce: starts from an empty database; receipts converted from an older schema by a migration are left out.
- Envelopes.DecodeSettles: the wire record is modelled, not its bytes; JSON text and number spelling belong to the library, and the length of a record's text is a parameter. Stored text is carried along so that keeping the first spelling is visible.
- IdentityStore.Enqueue: identity's events are modelled by ID, fact and time; their envelopes and their delivery are the subject of Envelopes, Outbox and Delivery.
- IdentityRuns.Read: looking a principal or a row up by email or digest is a parameter; IdentityKeys.KeysUnique shows that it is determined.
- Entropy, Argon2, SHA-256, keyed digests, password matching, the password policy and the blocklist are parameters or arbitrary replies; collision freedom is a stated hypothesis where it is needed.
- Display names, principal kinds, mail delivery, rate-limit admission in front of commands, and read-only queries.
- A worker that panics outside a write or a flush, and a log channel of capacity zero, which the runtime's configuration refuses.
- HTTP and WebSocket adapters, cookies, routing, telemetry, log formatting, configuration parsing, scalar validation and error classification.
- Incoming provenance hints, link sets and their parsing.
