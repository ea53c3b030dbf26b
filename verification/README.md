# Overpass, modelled in Dafny

Overpass books satellite ground-station passes and relays signed commands through stations it does not have to trust.
A mission authority issues mandates under flight rules; a station books a pass against a mandate and then relays
commands in that pass; the spacecraft accepts only increasing counters; Ops and the station each keep a hash chain of
what went up; an auditor compares the two. Around that core are a token keeper and session monitor that cut a session
when a peer loses its status, a pass predictor and a greedy planner, a supplier surface with its own replay cache, and
an event bus.

This project models those parties and proves what they promise together, over every run. `dafny verify dfyconfig.toml`
checks it.

## How the model is laid out

Each party the repository writes as an object is a class with that object's fields. Its methods keep the source's
branches and loops, and each is proved equal to a step function on a value (`State()`, `Value()`). Runs are sequences
of events over those step functions, and the main results are about every run.

| files | what they model |
|---|---|
| `Errs`, `Rules`, `Decimal`, `Schema` | codes, rules checked in order, integer text, wire objects, scopes |
| `Chain`, `Evidence`, `Store` | the command chain, what a side can show, the tables of one agent |
| `Keeper`, `Monitor`, `Session`, `SessionRun` | status tokens, the sticky cut, the station's session and its whole life |
| `Commander`, `Ops`, `Spacecraft` | the signer, the pass seen from Ops, the spacecraft |
| `PassRun`, `PassLedger`, `Flight`, `Auditor` | a whole pass over a lossy network, what both sides account for, the same flown to the spacecraft, its audit |
| `Tiers`, `Authority`, `Booking`, `Mission` | trust tiers, mandates, book_pass, and all honest stations together |
| `Passes`, `PassWindow`, `PassTable` | the pass scan, the edges of its window, and the table of several sites |
| `Sorting`, `Planner`, `PlanRules`, `PlanOrder` | stable sorting, the greedy planner, what plans keep to, order-independence |
| `Replan`, `DiffBalance`, `DiffExact`, `SelectedExact` | replanning, when its diff adds up, and when the selection is one in every order |
| `Supplier`, `Bus`, `Sequences` | the supplier's caches, the event bus, subsequences |

## What the code's promises need

These hold in the model, and each is a hypothesis or a result in the files named.

- Signatures are ideal: a token under a key was signed with that key. SHA-256 is a parameter, so every chain result
  holds for every hash function. Equal heads hand back the collision or genesis preimage they would need; or, because
  the canonical encoding writes counters above 2^53 - 1 through a double, two records that differ only in such counters
  (`Chain.EqualHeads`, with the input in `Chain.RoundedCounters`; with counters up to 2^53 - 1 there is no such case,
  `Chain.EqualHeadsExact`). No strict decoder admits such a counter.
- A store transaction, `book_pass`, a monitor tick and the supplier's `Verify` are each one step. A quote that expires
  and is pruned between reading it and booking would otherwise escape the extension of its expiry.
- Keys are pinned: a station takes only the authority's own key for the authority's name (`Mission.Trusts`), and the
  spacecraft holds exactly the Ops key (`Uplinks.AcceptedInSigningOrder`).
- `Pass.Send` is called sequentially, and a request is delivered at most once (`PassRun.Possible`): a second delivery
  would be refused by its counter, which Ops reads as never relayed.
- A station's cut is sticky once its monitor is installed (`SessionRun.CutEndsUplinks`); a refused first command
  installs none.

Seven promises of comments and documents are false as written. The code is kept as it is, and each has its exact
condition:

- *A revocation is not outlived by an older token* (`internal/verify/token.go:131-133`): a non-ACTIVE token dated at or
  before Go's zero time is not remembered. `Keeper.AllowIffRevocationDated` gives the exact condition,
  `Keeper.UndatedRevocationForgotten` the input.
- *During a pass the token is refetched every 30 s, and a revocation cuts* (`docs/master-plan.md:681`): with a keeper
  that another session shares for the same agent, a check that finds no token counts as a check, and a later command
  goes up more than 30 s after the last allowing one (`Monitor.SharedKeeperGap`; `SessionRun.StaleUplink` and
  `SessionRun.HeldButStale` with commands that really go up, the second with the token held again). For every monitor
  that is up, with the keeper to itself from then on, every later command is fresh if and only if the keeper holds a
  token for the agent and the last check allowed it (`Monitor.FreshInEveryRunIff`; after one more tick, if and only if
  the token is held, `Monitor.FreshIffHeld`). For every session that is up, every later uplink is fresh if and only if
  the session is closed, or no command is left to send, or its window has no time for a stale one: with a token held,
  none when no check is due and the last allowing check is 30 s old; without, none 30 s past that check
  (`SessionRun.StaysFreshIff`, and for every session a run leads to, `SessionRun.StaysFreshInEveryRun`). Over a whole
  session with any sharing, it is enough that at each of its own checks a token is held or the fetch succeeds
  (`SessionRun.SuppliedUplinksFresh`).
- *A total order, so the plan does not depend on input order* (`internal/planner/planner.go:236-237`): true exactly for
  tables with one pass per host and AOS (`PlanOrder.OrderFreeIffKeyed`). Tables the scan produces are such tables
  (`PassTable.TableIsOrderFree`). The selection alone is the same in every order, whatever other stations offer,
  exactly when of two different passes with one host, AOS and elevation one is dominated by a higher one that sets no
  later (`SelectedExact.SelectedFreeIff`).
- *A DPoP proof already used is refused* (`internal/supplieradapter/mandate.go:438-442`): a proof without `iat` skips
  the window, and is accepted again once the cache has forgotten it. `Supplier.NeverTwiceIffDated` gives the exact
  condition, `Supplier.UndatedTwice` the run.
- *AOS is before start plus horizon* (`internal/passes/passes.go:278-279`): a rise on the last sample of the window is
  taken (`PassWindow.RiseAtHorizonTaken`). The promise holds for every satellite, site and start exactly when the horizon is
  not a positive multiple of the ten-second step (`PassWindow.BeforeEndIffOffStep`).
- *AOS is at or after start* (`internal/passes/passes.go:278-279`): a rise exactly at start is never returned, because
  the first sample is already above the mask (`PassWindow.RiseAtStartLeftOut`); every pass returned rises strictly
  after start (`Passes.PredictedSound`).
- *A pass that rises before the horizon is followed to its LOS* (`internal/passes/passes.go:280-281`): not if it rises
  after the last sample by the horizon (`PassWindow.LateRiseMissed`), and only for 20 minutes past the horizon
  (`PassWindow.LongPassDropped`). A sampled contact of a minute is returned if and only if its first sample above the
  mask is by the horizon and its first below again within the overrun (`PassWindow.ReturnedIff`). So every contact with
  AOS before the horizon that sets within the overrun is returned, for every satellite, site and start, exactly when the
  horizon is at most a second past a multiple of the step (`PassWindow.DueReturnedIffOnStep`).

The diff of a replan matches passes by host and AOS alone, so one that swaps a pass for another of the same host and AOS
counts it as kept. The plan before always adds up, and so does the number of passes after when passes last; the contact seconds after
add up, whatever other stations offer, if and only if of the passes with one host and AOS the highest are the shortest
(`DiffExact.AlwaysBalancesIff`, with the input in `DiffExact.SwapUnbalanced`). Tables with one pass per host and AOS,
as the scan produces, are such tables.

## Model

| member | source | states |
|---|---|---|
| `Schema.CheckClasses` | internal/schema/validate.go:127-142 | accepts exactly the lists of 1 to 32 well-formed classes without repetition |
| `Schema.ParseScopeExact` | internal/schema/validate.go:165-186 | ParseScope accepts exactly the strings Scope builds from a known mode and a NORAD id in range, and gives those back |
| `Schema.ScopeInjective` | internal/schema/validate.go:165-167 | a scope names one mode and one satellite |
| `Schema.SignVerify` | internal/schema/objects.go:235-246 | over every command and key: signing succeeds exactly for a valid command, and what comes out verifies to it for a holder of the key, is a bad signature for anyone else, and does not read when an integer is above 2^53 - 1 |
| `Schema.Alphabets` | internal/schema/validate.go:38-124 | the characters and lengths of ids, names, classes, digests and thumbprints, written out |
| `Schema.MandateFields` | internal/schema/objects.go:100-113 | a mandate is valid if and only if its scope is uplink or downlink of a satellite in range written out, its classes are 1 to 32 distinct ones, its window is not empty and each field has its form |
| `Schema.ObjectFields` | internal/schema/objects.go:49-300 | the same for quotes, commands and acks, with their limits written out |
| `Chain.Link` | internal/chain/chain.go:76-94 | a record is built exactly from valid fields and a 64-digit head, carries those fields and is itself valid |
| `Chain.HashInputInjective` | internal/chain/chain.go:76-94 | the bytes hashed determine the head linked to and the record's fields, but for two counters above 2^53 - 1 |
| `Chain.CanonicalText` | internal/chain/chain.go:76-94 | the text hashed, in full: five members in the order of their names |
| `Chain.HexBytes` | internal/chain/chain.go:76-84 | each byte of the previous hash is its two hex digits, the high one first |
| `Chain.Chain.AppendRecord` | internal/chain/chain.go:61-73 | appends the linked record and moves head and counter, or refuses and changes nothing |
| `Chain.Walk` | internal/chain/chain.go:99-118 | re-verifies a record list from the genesis hash: the loop computes WalkFrom, characterised by the next four rows |
| `Chain.WalkExactly` | internal/chain/chain.go:96-118 | a walk succeeds if and only if every record links to the one before, has a higher counter, well-formed fields and the hash that seals it, and gives the last hash; otherwise the first that does not decides, RECORD_PARSE_ERROR for malformed fields and CHAIN_MISMATCH for the rest |
| `Chain.WalkAcceptsExactlyAppended` | internal/chain/chain.go:61-118 | Walk accepts exactly the lists that Appends build from an empty chain, and returns that chain's head |
| `Chain.AppendChained` | internal/chain/chain.go:61-73 | a valid entry with a higher counter is always appended, and the result is again a chain built from empty |
| `Chain.EqualHeads` | internal/chain/chain.go:76-118 | two accepted lists with one head are equal, or reading them backwards yields two inputs with one hash, an input that hashes to the genesis value, or two records that differ only in counters above 2^53 - 1 and are hashed alike |
| `Chain.EqualHeadsExact` | internal/chain/chain.go:76-118 | when one list's counters are at most 2^53 - 1, only the first three |
| `Chain.RoundedCounters` | internal/chain/chain.go:76-94 | the input of the fourth: one command under 2^53 and under 2^53 + 1 gives two accepted lists with one head |
| `Evidence.CollectAcks` | internal/session/station.go:205-209 | the acks held for the chained records, in record order |
| `Evidence.AcksOfConcat` | internal/session/station.go:205-209 | the acks shown for two stretches of records are those of the first, then those of the second; one record shows its own ack or none |
| `Store.Store.PruneIfDue` | internal/store/store.go:49-56 | every so many writes drops expired proofs and expired quotes without a booking, and nothing else |
| `Store.Store.InsertQuote` | internal/store/store.go:155-159 | prunes when due, then stores a quote with a new id |
| `Store.Store.InsertBooking` | internal/store/store.go:204-235 | the booking transaction, as one step; a refusal leaves every table as it was |
| `Store.Store.DrawCounter` | internal/store/store.go:250-255 | one more than the last value drawn under that name |
| `Store.Store.AdvanceCounter` | internal/store/store.go:260-268 | moves a counter up, never down or sideways |
| `Store.Store.InsertMandate` | internal/store/store.go:295-314 | logs a mandate only while its satellite and day are under the limit |
| `Store.Store.SeenProof` | internal/store/store.go:325-335 | reports a live entry as a replay, else stores the key |
| `Store.PruneKeeps` | internal/store/store.go:49-56 | pruning leaves bookings, consumed nonces, counters, the mandate log, live proofs and booked quotes alone |
| `Store.BookKeepsOneAntenna` | internal/store/store.go:204-235 | a booking keeps all windows disjoint and all (issuer, nonce) pairs distinct and consumed, although the overlap query skips bookings with the same nonce |
| `Store.ReachableOneAntenna` | internal/store/store.go:204-235 | the same in every reachable store, under any interleaving of all store operations |
| `Store.RecordKeepsLimit` | internal/store/store.go:295-314 | logging a mandate keeps every satellite and day within the limit |
| `Store.ReplayCaught` | internal/store/store.go:325-335 | a stored proof reads as a replay until it expires, whatever is stored or pruned meanwhile |
| `Store.QuoteFoundIff` | internal/store/store.go:162-177 | a quote is found exactly while its row is on file and now is before the row's expiry, and it is that row's quote |
| `Store.PruneDrops` | internal/store/store.go:49-56 | every 256th write leaves no expired proof and no expired quote without a booking; every other write drops nothing |
| `Store.PutExactly` | internal/store/store.go:155-159 | a quote is stored exactly when its id is not on file after pruning, until its own expiry; no other id comes or goes |
| `Store.ReplayIff` | internal/store/store.go:325-335 | a proof is a replay exactly when a live entry has its key; otherwise the key is stored until the proof's own expiry |
| `Store.LoggedIff` | internal/store/store.go:295-314 | a mandate is logged exactly while its satellite and UTC day are under the limit and its id is new, with the code of each refusal |
| `Store.DayMeans` | internal/store/store.go:295-300 | a day is the 86400 seconds from its UTC midnight |
| `Store.SharedSecond` | internal/store/store.go:204-217 | bookings that last overlap exactly when they share a second |
| `Keeper.Keeper.RecordToken` | internal/verify/token.go:134-148 | the new held and revoked maps |
| `Keeper.Keeper.CheckToken` | internal/verify/token.go:118-129 | the decision and the new maps |
| `Keeper.AlwaysKeepsNewest` | internal/verify/token.go:118-148 | for any order of fetches: the newest dated non-ACTIVE token is remembered, and a held token is ACTIVE, was fetched, and is newer than it |
| `Keeper.AllowIffRevocationDated` | internal/verify/token.go:78-148 | every later Allow rests on an ACTIVE token issued strictly after every non-ACTIVE one seen, younger than MaxAge when the fetch failed, if and only if no non-ACTIVE token was seen or one was issued after Go's zero time |
| `Keeper.UndatedRevocationForgotten` | internal/verify/token.go:134-141 | the failing input: an undated revocation does not stop an ACTIVE token of that date |
| `Keeper.HoldsNewest` | internal/verify/token.go:134-148 | after any history a token is held exactly when some ACTIVE token was fetched that no dated revocation before it outlived and no check after it revoked, and then the newest of those |
| `Keeper.AnswersFromHistory` | internal/verify/token.go:78-129 | the whole answer of a check from what was fetched before: revoked for a token that is not ACTIVE or that a dated revocation outlived; unavailable for a failed fetch with no live token; stale when the newest live one has reached MaxAge; otherwise allowed, on the fetched token or, with a warning, on that one |
| `Monitor.Monitor.Cut` | internal/session/monitor.go:88-100 | the first cut sets the code and runs OnCut, later ones do nothing |
| `Monitor.Monitor.TickNow` | internal/session/monitor.go:42-69 | the monitor, the keeper, the code and whether OnCut ran |
| `Monitor.Monitor.TickWhenDue` | internal/session/monitor.go:74-83 | ticks only when never good or last checked long enough ago, else returns the standing cut |
| `Monitor.CutOnceForAll` | internal/session/monitor.go:42-107 | in every run OnCut runs once if cut and never otherwise, and a cut keeps its code at every later tick |
| `Monitor.StaysLive` | internal/session/monitor.go:42-83 | with a keeper of its own, an installed uncut monitor always has a held ACTIVE token and its last check allowed |
| `Monitor.FreshAtEveryCommand` | internal/session/monitor.go:74-83 | from installation on, a command goes through only on an allowing check less than 30 s old |
| `Monitor.FreshIffHeld` | internal/session/monitor.go:42-83 | for every monitor that is up: after one more tick at any later time, every command let through has an allowing check less than 30 s old, if and only if the keeper holds a token for the agent |
| `Monitor.FreshInEveryRunIff` | internal/session/monitor.go:42-83 | for every monitor that is up: the same at every command of every run in which no other session checks the agent, if and only if a token is held and the agent was allowed no earlier than the last check |
| `Monitor.SharedKeeperGap` | internal/session/monitor.go:42-83 | the failing run with a shared keeper: a command 50 s after the last allowing check |
| `Monitor.TickAnswers` | internal/session/monitor.go:42-69 | which code follows which denial, on a keeper with any history: a standing cut stays; a revoked or outlived token cuts as revoked, a newest live token past MaxAge cuts as stale, no live token refuses without a cut, anything else passes |
| `Monitor.DueMeans` | internal/session/monitor.go:74-83 | a check is skipped exactly within 30 s of the last one, once one has passed |
| `Commander.BuildDrawsNext` | internal/ops/ops.go:33-41 | the signed command carries the mandate id, class, body and time asked for, its satellite's next counter and the Ops key, and is built exactly when that command is valid; other counters stay |
| `Commander.OwnCounter` | internal/ops/ops.go:33-36 | each satellite has a counter of its own |
| `Spacecraft.Spacecraft.constructor` | internal/spacecraft/spacecraft.go:45-52 | a restarted spacecraft is nominal with the persisted counter |
| `Spacecraft.Spacecraft.ApplyBody` | internal/spacecraft/spacecraft.go:93-111 | the new mode, beacon and battery |
| `Spacecraft.Spacecraft.Receive` | internal/spacecraft/spacecraft.go:65-89 | the new counter, state and ack; a refusal changes nothing |
| `Spacecraft.AckNamesItsCommand` | internal/spacecraft/spacecraft.go:65-137 | every readable token gets a valid ack with its own counter, accepted exactly when the command was |
| `Spacecraft.NewCraft` | internal/spacecraft/spacecraft.go:45-52 | a new spacecraft is nominal at 87 % with a 30 s beacon and the persisted counter, or zero |
| `Spacecraft.UplinkExactly` | internal/spacecraft/spacecraft.go:65-111 | a command is accepted if and only if it reads, is signed by an Ops key for this satellite and its counter is above the persisted one; then set_mode with nominal or safe leaves that mode, set_beacon within 5 to 600 that beacon, the other field and all else stay, a decoded body costs one percent above 20, and the ack carries the digest of the state left; a refused command changes no field |
| `Spacecraft.RejectionExactly` | internal/spacecraft/spacecraft.go:65-137 | the reason of a refused command: signature before satellite before counter |
| `Spacecraft.OwnCounter` | internal/spacecraft/spacecraft.go:54 | each spacecraft has a counter of its own |
| `Uplinks.AcceptanceAdvances` | internal/spacecraft/spacecraft.go:65-89 | what is accepted was signed for this satellite by Ops and raises the persisted counter to its own |
| `Uplinks.AcceptedInSigningOrder` | internal/spacecraft/spacecraft.go:45-89 | whatever relays reorder, repeat, drop or invent, and however often the spacecraft restarts, accepted commands are a subsequence of the signing order with strictly increasing counters |
| `Uplinks.AcceptedWasAsked` | internal/ops/ops.go:33-41 | in every run each accepted command has the mandate id, class, body and time that some signing was asked for |
| `Session.CheckCommand` | internal/session/station.go:97-111 | a command passes if and only if the token reads, its class is in the mandate, it names the booking's mandate and its counter is above the last chained; a refusal has one of five codes |
| `Session.CommandRefusal` | internal/session/station.go:97-111 | the first of these that fails names the refusal: the token reads and is of this type, its fields, its class, its mandate, its counter above the last chained |
| `Session.StationSession.WatchCaller` | internal/session/station.go:138-152 | installs a monitor only after an allowing first check, later re-checks when due |
| `Session.StationSession.Record` | internal/session/station.go:116-131 | chains the command, then files the ack or counts it missing |
| `Session.StationSession.RelayOne` | internal/session/station.go:81-133 | one relay: the whole new session, the keeper and the answer |
| `Session.StationSession.Show` | internal/session/station.go:190-214 | evidence for the booking's Ops agent and the auditors, a refusal for anyone else |
| `Session.Manager.Locate` | internal/session/station.go:218-248 | one session per booking, opened from the stored booking, sharing no object with another |
| `Session.Manager.RelayAt` | internal/session/station.go:74-133 | relaying on one session leaves every other as it was |
| `Session.Manager.Handle` | internal/session/station.go:74-133 | a call without a caller or a booking changes neither any session's state nor the keeper; any other is relayed on its own session alone |
| `Session.RelayRefusal` | internal/session/station.go:81-118 | a relay answers with the first rule that fails, window (30 s wider each way) and key before the status check before the command; otherwise the command goes up as it was signed; a refusal changes nothing but the closed flag past the end and what the status check left |
| `Session.RecordExactly` | internal/session/station.go:116-131 | an uplink adds one record with the command's counter, mandate, class and token digest, and files the ack if it is valid and of this counter, or else counts the counter missing |
| `Session.WatchMeans` | internal/session/station.go:138-152 | the status check before a command on a keeper with any history: for whom, when it is skipped, each code it can refuse with, and that only passing installs a monitor |
| `Session.ReadersExactly` | internal/session/station.go:190-204 | evidence is for the mandate's subject and the auditors listed, nobody else |
| `Session.ShownExactly` | internal/session/station.go:205-214 | the evidence holds the whole chain, every missing counter, the cut and the ack of every record that has one |
| `Session.OpensExactly` | internal/session/station.go:218-248 | a session opens exactly for a stored booking whose mandate decodes, with nothing chained, acked, missing, watched or closed; the code otherwise |
| `SessionRun.UplinksExactlyWhen` | internal/session/station.go:74-115 | a command goes up if and only if the session is open and in its window widened by 30 s, the caller has the mandate's key, the status check refuses nothing, and class, mandate and counter fit |
| `SessionRun.SuppliedUplinksFresh` | internal/session/station.go:138-152 | over a session's whole life, whoever shares the keeper: if at each of its own checks a token is held or the fetch succeeds, every uplink follows an allowing check less than 30 s old; session_cut is emitted once if the session is cut and never otherwise |
| `SessionRun.EveryUplinkFresh` | internal/session/station.go:138-152 | with the keeper to itself for the agent, every uplink is that fresh and an uncut session's token is held, with no assumption on the fetches |
| `SessionRun.StaysFreshIff` | internal/session/station.go:74-152 | for every session that is up, whatever its last check found: every later uplink of every continuation with the keeper to itself is fresh, if and only if the session is closed, or no command passes its checks, or the window has no time for a stale one (with a token held: no time when no check is due and the last allowing check is 30 s old; without: no time 30 s past it) |
| `SessionRun.StaysFreshInEveryRun` | internal/session/station.go:74-152 | the same for every session that any run from its opening leads to, however the keeper is shared |
| `SessionRun.StaleUplink` | internal/session/station.go:74-152 | a failing run: a tick that finds no token, then a relay by the mandate's key in the window, sends a command up 30 s or more after the last allowing check |
| `SessionRun.HeldButStale` | internal/session/station.go:74-152 | another: revoked and back in another session's checks with a tick between, the token is held again, and a command goes up 40 s after the last allowing check |
| `SessionRun.CutEndsUplinks` | internal/session/monitor.go:88-107 | once a session is cut, in every continuation nothing more goes up or is chained, the code stays and session_cut is not emitted again, whoever shares the keeper |
| `Ops.Pass.OnCut` | internal/ops/ops.go:87-97 | drops the queue and keeps the code |
| `Ops.Pass.Queue` | internal/ops/ops.go:100-106 | queues unless cut |
| `Ops.Pass.FinishSend` | internal/ops/ops.go:144-168 | chains unless the answer is a refusal from before the relay, then files the ack or counts it missing |
| `Ops.Pass.Send` | internal/ops/ops.go:131-169 | one command through any station behaviour: the pass, the counter store and the result |
| `Ops.Pass.Flush` | internal/ops/ops.go:110-127 | sends the queue in order until it is empty or a send fails: the loop computes FlushFrom, characterised by the next two rows |
| `Ops.FlushFiles` | internal/ops/ops.go:110-127 | a flush files exactly the acks it returns, for the records it chains, in queue order; each ack is the station's answer to a token signed over the queued class and body; without an error every queued command was chained and acked and the queue is empty; with one, at most one more record was chained and the commands after the failed one are still queued |
| `Ops.FlushedInOrder` | internal/ops/ops.go:110-127 | the acks a flush returns have increasing counters |
| `Ops.SendAnswers` | internal/ops/ops.go:131-169 | an ack that Send returns is the station's answer to the command asked for, under the next counter and the Ops key |
| `Ops.FinishExactly` | internal/ops/ops.go:144-183 | what is chained, acked, counted missing and returned for every answer: nothing for a named refusal other than ACK_MISSING, ACK_PARSE_ERROR, UNAVAILABLE and INTERNAL; a record for anything else |
| `Ops.QueueExactly` | internal/ops/ops.go:87-106 | an uncut pass queues at the end and changes nothing else; a cut one queues nothing; a cut empties the queue, keeps its code and changes nothing else |
| `Ops.UnsentExactly` | internal/ops/ops.go:131-143 | a cut pass answers with its cut and draws no counter; an invalid command draws its counter and fails without a name; either way the pass stays as it was |
| `Ops.Pass.Show` | internal/ops/ops.go:186-197 | Ops' evidence of the pass |
| `PassRun.RelayAnswers` | internal/session/station.go:74-133 | after an uplink the station's append never fails and the answer is the ack or ACK_MISSING; without one nothing is chained and the answer is a refusal Ops recognises |
| `PassRun.StepKeeps` | internal/ops/ops.go:131-183 | the distributed invariant of a pass is kept by every step, with requests lost or late, replies lost, strangers and cuts |
| `PassRun.StationChainsASubsequence` | internal/ops/ops.go:131-183 | whenever no Send is in progress, the commands the station chained are a subsequence of those Ops chained |
| `PassRun.CleanRunEqualChains` | internal/ops/ops.go:131-183 | if every answer arrives and none is Unavailable or Internal, the two chains and heads are equal whenever no Send is in progress |
| `PassLedger.EveryCommandAccounted` | internal/ops/ops.go:151-168 | in every run, at every moment, each side's chained commands split exactly into those acked and those counted missing |
| `Flight.AcceptedAcksAreTrue` | internal/spacecraft/spacecraft.go:65-89 | in every run, through losses both ways, strangers, other stations and restarts, an Accepted ack held by Ops or by the station for a counter means the spacecraft accepted the very token that side chained under it |
| `Auditor.CountMissing` | internal/auditor/auditor.go:147-162 | the station's records without an ack, plus the difference in record counts |
| `Auditor.Add` | internal/auditor/auditor.go:95-105 | adds one check's row and keeps the flag equal to "none failed so far" |
| `Auditor.Audit` | internal/auditor/auditor.go:89-143 | six checks in order, each failed exactly when its question is answered no, and pass exactly when none failed |
| `Auditor.UnackedCounts` | internal/auditor/auditor.go:147-162 | the count is the number of records whose counter no ack has |
| `Auditor.RowsMean` | internal/auditor/auditor.go:89-143 | the six rows under their names and codes, on what was verified and shown: identity, receipt, mandate, the receipt naming the mandate and the mandate a key, one non-empty head, and chains as long with an ack for every record |
| `Auditor.PassMeans` | internal/auditor/auditor.go:89-143 | the verdict is pass if and only if all of those hold |
| `AuditRun.UnackedAtStation` | internal/auditor/auditor.go:147-162 | at an honest station each record either shows an ack or counts as unacked |
| `AuditRun.AcksCheckImpliesChainMatch` | internal/auditor/auditor.go:115-162 | in every honest run at rest the missing count is commands chained by Ops minus acks held by the station, so the acks check passing implies equal chains and the chain check passing |
| `Authority.IssueMandate` | internal/authority/authority.go:177-215 | the ordered checks, then the log entry, then the signed mandate |
| `Authority.IssuedWithinRules` | internal/authority/authority.go:177-273 | every issued mandate names the quoted station, window and satellite, binds the caller's key, carries the classes asked for (or all the mode allows when none were), each allowed for the mode, and has its own row in the log; audience, quote id, amount and both ends of the window are the quote's |
| `Authority.UplinkNeedsTopTier` | internal/authority/authority.go:219-273 | uplink outside the operator's list needs every top-tier threshold at once, the certificate floor among them |
| `Authority.IssueKeepsLimit` | internal/authority/authority.go:206-214 | whatever is asked, no satellite and day in the log exceeds the daily limit |
| `Authority.PolicyRefusal` | internal/authority/authority.go:219-273 | the flight rules written out on the rules, quote, evaluation and clock: the first that fails of window, station list, trust, classes, amount ceiling and daily limit names the refusal |
| `Authority.GrantedExactlyWhen` | internal/authority/authority.go:177-273 | a mandate is granted if and only if the quote, caller, station and its verification, every flight rule, the day's log and the mandate's own form are in order, and then the one asked for; otherwise the code of the first that fails |
| `Authority.GradeIff` | internal/authority/authority.go:71-97 | a station's tier is FIDUCIARY when no audit failed and every uplink threshold is met, with defaults 80, 80, 3 and DV; TRANSACTIONAL when no audit failed and the downlink integrity is, with default 50; READ_ONLY otherwise |
| `Authority.RefusedUnlogged` | internal/authority/authority.go:177-215 | a refusal other than one of signing leaves the log as it was |
| `Booking.FindSatellite` | internal/station/station.go:162-169 | the first registered satellite with that id, or proof that there is none |
| `Booking.Book` | internal/station/station.go:275-352 | the ordered checks and the transaction, as one step on the store |
| `Booking.BooksFreeWindow` | internal/store/store.go:204-235 | with one antenna, the transaction accepts exactly a window free of every booking with a nonce never consumed |
| `Booking.BooksExactlyWhen` | internal/station/station.go:275-352 | in every history book_pass succeeds if and only if the mandate is signed by the satellite's registered authority for one of its Ops agents and this station, covers a live quote for the caller's key, and the window and nonce are free; otherwise nothing changes |
| `Booking.RunGood` | internal/station/station.go:275-352 | every history keeps one antenna and quotes filed under their own ids |
| `Booking.ConsumedNotClash` | internal/store/store.go:204-235 | booking the same window and nonce again meets the consumed nonce, never the overlap |
| `Booking.ReplayIsConsumed` | internal/station/station.go:308-350 | after a successful booking, under any quotes, bookings, proofs and prunes, the same key replaying the mandate before it expires gets MANDATE_REJECTED:consumed |
| `Booking.MandateRefusal` | internal/station/station.go:281-307 | the mandate's checks: it reads, is signed by its issuer, the registry's first entry for the satellite names issuer and Ops agent, and it is for this station; the first that fails names the refusal |
| `Booking.QuoteRefusal` | internal/station/station.go:308-335 | the quote's checks on the row on file: the quote booked, on file and not expired, its scope, amount and window, and the caller's key; the first that fails names the refusal |
| `Booking.TransactionRefusal` | internal/store/store.go:204-235 | overlap with another nonce, then the nonce consumed, then the id taken; the first names the refusal |
| `Booking.BookRefusal` | internal/station/station.go:275-352 | book_pass books if and only if none of these fails, and otherwise answers with the first, mandate before quote before transaction |
| `Booking.BookedExactly` | internal/station/station.go:336-352 | the row stored, the nonce consumed under the mandate's id, the quote kept until the pass ends, and nothing else changed |
| `Booking.QuoteLastsExactly` | internal/store/store.go:155-177 | over every history after a quote is stored: it is found at every time before its expiry; once expired and not booked, an otherwise good mandate for it is refused with MANDATE_REJECTED:quote |
| `Mission.BookPassOK` | internal/station/station.go:275-352 | a new booking rests on a mandate the satellite's authority granted, for this station, window and nonce |
| `Mission.IssueKeepsGrants` | internal/authority/authority.go:177-215 | issuing adds a grant within the flight rules and changes no earlier one |
| `Mission.ManagedOK` | internal/session/station.go:74-118 | what a relay sends up fits the booking's mandate in class, id, key and time |
| `Mission.EveryUplinkAuthorized` | internal/session/station.go:74-118 | in every run of the authority and all honest stations, every uplink traces to a mandate of the satellite's registered authority for that station: class in the mandate and in the flight rules for the mode the mandate's scope names, the key that of both the caller and the requesting Ops agent, the time in the window widened by 30 s |
| `Mission.OneBookingPerMandate` | internal/store/store.go:204-235 | two bookings at any stations with one mandate are one booking |
| `Mission.DailyLimitHolds` | internal/authority/authority.go:206-214 | across all honest stations together, the bookings of a satellite with AOS on one UTC day never exceed max_passes_per_day, when every station that knows the satellite has this authority registered for it |
| `Passes.Bisect` | internal/passes/passes.go:350-369 | the crossing second lies in the step, and the mask is crossed exactly there |
| `Passes.OneCrossing` | internal/passes/passes.go:348-369 | in a step with one crossing, the answer is the first second at or above the mask for a rise, or the first below for a set |
| `Passes.Crossing` | internal/passes/passes.go:350-369 | the loop's answer, or a fault only when some elevation is one |
| `Passes.PeakElevation` | internal/passes/passes.go:372-394 | the highest second within five of the first highest five-second sample; or -90 when none is higher |
| `Passes.RoundNearest` | internal/passes/passes.go:339-341 | the nearest integer, halves away from zero |
| `Passes.Predict` | internal/passes/passes.go:283-346 | the passes are the sampled contacts of at least 60 s, all of them and only them, in order |
| `Passes.PredictedSound` | internal/passes/passes.go:297-346 | each pass has a mask crossing exactly at AOS and at LOS, all samples between above the mask, rises after start by the horizon, sets within the overrun, and sets before the next rises |
| `Passes.PredictedComplete` | internal/passes/passes.go:297-346 | every sampled rise after start and by the horizon that sets within the 20-minute overrun and lasts at least 60 s is out exactly once |
| `PassWindow.PredictedUnique` | internal/passes/passes.go:283-346 | what is predicted is fixed: every pass with all its fields, in order |
| `PassWindow.BeforeEndIffOffStep` | internal/passes/passes.go:278-298 | every predicted AOS is before start plus horizon, for all elevations, sites and starts, if and only if the horizon is not a positive multiple of the sampling step |
| `PassWindow.RiseAtHorizonTaken` | internal/passes/passes.go:297-346 | the failing input: a rise at second 10, scanned from 0 for ten seconds, is returned with AOS 10, and nothing else can be |
| `PassWindow.RiseAtStartLeftOut` | internal/passes/passes.go:303-325 | a hundred-second contact that rises exactly at start is not returned |
| `PassWindow.ReturnedIff` | internal/passes/passes.go:311-345 | a sampled contact of at least 60 s is returned if and only if its first sample above the mask is by the horizon and its first below again within the 20-minute overrun |
| `PassWindow.DueReturnedIffOnStep` | internal/passes/passes.go:278-346 | every such contact with AOS after start and before start plus horizon that sets within the overrun is returned, for all elevations, sites and starts, if and only if the horizon is negative or at most a second past a multiple of the step |
| `PassWindow.LateRiseMissed` | internal/passes/passes.go:311-345 | the failing input: up from second 12 to 112, scanned from 0 for 15 seconds, and nothing is returned |
| `PassWindow.LongPassDropped` | internal/passes/passes.go:311-345 | the failing input: a 2000-second contact is dropped |
| `PassTable.TableIsOrderFree` | internal/passes/passes.go:397-413 | the passes of sites with distinct hosts, in any order, have distinct (host, AOS), so planning over them does not depend on their order |
| `Planner.JudgeTable` | internal/planner/planner.go:188-215 | the eligible and the refused candidates, each in table order |
| `Planner.PickPasses` | internal/planner/planner.go:217-230 | the greedy choice over the sorted candidates |
| `Planner.FindOverlap` | internal/planner/planner.go:252-259 | whether any selected pass shares a second |
| `Planner.ScheduleTable` | internal/planner/planner.go:182-234 | the plan, characterised by the PlanRules rows |
| `Planner.IndexStations` | internal/planner/planner.go:166-175 | the stations by host, or nothing exactly when a host is empty or repeated |
| `Planner.PlanPasses` | internal/planner/planner.go:162-177 | a plan exactly for a valid request and station list, BAD_REQUEST otherwise |
| `Planner.ScheduleExactly` | internal/planner/planner.go:116-177 | a plan comes back if and only if the mode is uplink or downlink, the goal positive, the price weight 0 to 10000 and the hosts non-empty and distinct; each station is looked up under its own host |
| `Planner.BetterMeans` | internal/planner/planner.go:236-250 | a higher score, then an earlier AOS, then the host lower at the first character they differ |
| `Planner.OverlapMeans` | internal/planner/planner.go:252-259 | passes that last overlap exactly when they share a second |
| `Planner.PriceKeyInjective` | internal/planner/planner.go:157-158 | a price key names one host and AOS, whatever characters the host has |
| `Planner.SoonerTie` | internal/planner/planner.go:245-250 | two passes tie in time order exactly when host and AOS agree |
| `Planner.BetterWeak` | internal/planner/planner.go:238-243 | the score order is one a stable sort accepts |
| `PlanRules.PlanPartitions` | internal/planner/planner.go:188-234 | Selected and Others split the table as a multiset |
| `PlanRules.SelectedRules` | internal/planner/planner.go:216-234 | Selected is in time order, pairwise non-overlapping and eligible, was taken best first while the goal was unmet; ContactS is its duration sum and GoalMet holds exactly when it reaches the goal |
| `PlanRules.SelectedBookable` | internal/planner/planner.go:196-213 | every selected pass is of a known, verified, not removed station whose tier allows the mode, at a price in range, with the documented score |
| `PlanRules.OthersExplained` | internal/planner/planner.go:196-234 | every pass in Others is ineligible with the reason, overlaps a selected one at least as good (before worse ones met the goal), or came after ones at least as good met the goal |
| `PlanRules.JudgeMeans` | internal/planner/planner.go:193-215 | a pass is eligible if and only if its host is not removed, known and verified, its tier FIDUCIARY (or TRANSACTIONAL for downlink), and its price on file and within 0 to 100000000 cents; otherwise it has the code of the first of these that fails, and score 0 |
| `PlanRules.EveryPassJudged` | internal/planner/planner.go:182-234 | in every plan: what is selected is eligible, with its price and score; what is in Others has the code of the first rule it fails, or is eligible and explained by the selection |
| `PlanOrder.PermutedTable` | internal/planner/planner.go:182-250 | with one pass per host and AOS, every permutation of the table gives the same Selected and Others |
| `PlanOrder.PermutedSelected` | internal/planner/planner.go:216-243 | if no two different passes share host, AOS and elevation, every order of the table gives the same Selected, contact time and goal |
| `SelectedExact.UncontestedSelected` | internal/planner/planner.go:216-243 | for passes that last: if of two different passes with one host, AOS and elevation one is always dominated by a higher one that sets no later, every order gives the same Selected, contact time and goal |
| `SelectedExact.SelectedFreeIff` | internal/planner/planner.go:216-243 | Selected is the same for every order, every request and whatever other stations' passes beside the table, if and only if that holds |
| `PlanOrder.PermutedStations` | internal/planner/planner.go:166-175 | the station list is accepted in every order or in none, with one index |
| `PlanOrder.OrderFreeIffKeyed` | internal/planner/planner.go:162-250 | for every request, price list and station list the plan is the same for every order of table and stations, if and only if a host and an AOS name one pass |
| `Replan.DiffPlans` | internal/planner/planner.go:315-338 | kept, dropped and added by host and AOS, characterised by the DiffBalance rows |
| `Replan.DiffMeans` | internal/planner/planner.go:315-338 | a pass of the plan before is kept or dropped as the plan after selects its host at its AOS or not; one of the plan after is added when the plan before did not |
| `Replan.ReplanWithout` | internal/planner/planner.go:291-313 | the new plan and the diff, or the error when there is no plan |
| `Replan.ReplansArePlans` | internal/planner/planner.go:291-313 | any run of replans equals planning the original table with all those hosts excluded |
| `Replan.NeverReadmitted` | internal/planner/planner.go:291-313 | after any run of replans, of any table, no pass of a removed host is selected |
| `Replan.RemovalsCommute` | internal/planner/planner.go:291-313 | with one pass per host and AOS, runs that remove the same hosts, in any order and however often, give the same Selected and Others |
| `Replan.RemovalsCommuteOnSelected` | internal/planner/planner.go:291-313 | if no two different passes share host, AOS and elevation, runs that remove the same hosts give the same Selected |
| `Replan.RemovingUnused` | internal/planner/planner.go:291-313 | for every table, also with repeated keys: removing a host with no selected pass leaves Selected, contact time and goal as they were |
| `DiffBalance.BeforeBalances` | internal/planner/planner.go:315-338 | for every table: kept plus dropped is the plan before in number and in contact seconds, and the removed host's passes are all dropped |
| `DiffBalance.AfterBalancesInNumber` | internal/planner/planner.go:315-338 | for every table whose passes last, or whose keys are distinct: kept plus added is the plan after in number |
| `DiffBalance.AfterBalancesInSeconds` | internal/planner/planner.go:315-338 | the same in contact seconds, with one pass per host and AOS |
| `DiffExact.AlwaysBalancesIff` | internal/planner/planner.go:315-338 | the contact seconds after every replan balance, whatever the request, the order and the other stations' passes beside the table, if and only if of the passes with one host and AOS the highest are the shortest |
| `DiffExact.SwapUnbalanced` | internal/planner/planner.go:315-338 | the failing input: a high long and a low short pass with one host and AOS |
| `Supplier.Adapter.GC` | internal/supplieradapter/adapter.go:369-381 | drops exactly the quotes and proofs whose second has passed |
| `Supplier.Adapter.GetQuote` | internal/supplieradapter/adapter.go:322-328 | sweeps, then stores the quote for 30 minutes |
| `Supplier.Adapter.BookFlight` | internal/supplieradapter/mandate.go:352-454 | the ordered checks, then replay and consumption together, characterised by AcceptsExactlyWhen |
| `Supplier.FindOption` | internal/supplieradapter/mandate.go:394-402 | the last option with that id, or none exactly when there is none |
| `Supplier.AcceptsExactlyWhen` | internal/supplieradapter/mandate.go:352-454 | a booking is accepted if and only if the mandate is signed under a published key of the pinned authority for this adapter, covers an option of a live quote in scope, amount and currency and is in its window widened by 30 s, the proof has an id, is recent or undated and binds the mandate's key to this call, and neither was used before; otherwise nothing changes |
| `Supplier.IssuerRefusal` | internal/supplieradapter/mandate.go:365-386 | key source, signature, key id, key, pinned authority, audience: the first that fails names the refusal |
| `Supplier.QuoteRefusal` | internal/supplieradapter/mandate.go:387-411 | without a live quote of that id that the mandate names, or without the option, the quote is refused; otherwise scope, amount or currency, in that order |
| `Supplier.ProofRefusal` | internal/supplieradapter/mandate.go:412-437 | the window widened by 30 s, then a proof that is there, named, dated within 300 s if at all, of the mandate's key and for this call |
| `Supplier.RefusedExactly` | internal/supplieradapter/mandate.go:352-454 | book_flight refuses at the first stage that fails, by that stage's first failing rule, and last for a proof or mandate used before |
| `Supplier.RemembersFor` | internal/supplieradapter/mandate.go:438-453 | an accepted call's proof is remembered for ten minutes and its mandate for a day |
| `Supplier.OfferMeans` | internal/supplieradapter/adapter.go:322-381 | a quote stands for thirty minutes to the second; exactly what has expired is swept |
| `Supplier.TruncateMeans` | internal/supplieradapter/mandate.go:312-317 | a fractional iat counts as its whole seconds towards zero |
| `Supplier.WindowClosesFirst` | internal/supplieradapter/mandate.go:315-317 | an accepted call repeats no remembered mandate, and no remembered proof with a nonzero iat, because the 300 s window closes before the ten-minute entry is swept |
| `Supplier.MandateOnce` | internal/supplieradapter/mandate.go:445-452 | in every run no mandate id is accepted twice |
| `Supplier.NeverTwiceIffDated` | internal/supplieradapter/mandate.go:438-453 | a proof is accepted at most once in every run under a clock that does not go back, if and only if its iat is not zero or the adapter never accepts it |
| `Bus.Bus.PublishEvent` | internal/bus/bus.go:63-91 | the next id, the bounded backlog, every channel with room gets the event and every full one is dropped |
| `Bus.Bus.Open` | internal/bus/bus.go:98-118 | the backlog after the id given, and a new channel; refused when closed or full |
| `Bus.Bus.Cancel` | internal/bus/bus.go:120-127 | closes a channel that is still subscribed, else nothing |
| `Bus.Bus.Close` | internal/bus/bus.go:131-139 | closes every subscriber's channel and refuses what follows |
| `Bus.PublishExactly` | internal/bus/bus.go:63-91 | the next id, the event's own time or now, its own body; every subscriber with fewer than 64 waiting gets it, one with 64 is closed and dropped; a closed bus and an event that does not encode change nothing |
| `Bus.SubscribeExactly` | internal/bus/bus.go:98-118 | refused exactly when closed or full; otherwise an empty channel of its own |
| `Bus.CancelExactly` | internal/bus/bus.go:120-127 | cancelling closes that channel once and drops that subscriber alone; again, it does nothing |
| `Bus.CloseEndsAll` | internal/bus/bus.go:131-139 | every open channel is closed once, and whatever follows, nobody is subscribed and nothing is published |
| `Bus.SubscribersReadTheLog` | internal/bus/bus.go:63-139 | in every run, what a subscriber got followed by its channel is a contiguous, duplicate-free run of the published log, up to its end while subscribed; its channel is closed at most once, exactly when it is no longer subscribed |
| `Bus.ResumeMissesNothing` | internal/bus/bus.go:98-113 | resuming with the last id seen replays everything since, if and only if at most the backlog size of newer events exist |

## Left out

- DiffExact.AlwaysBalancesIff: speaks of passes as long as their windows and not empty, which is what the scan returns.
- PlanOrder.PermutedSelected: a sufficient condition for every table; the exact one, SelectedExact.SelectedFreeIff, is for passes that last.
- Replan.RemovalsCommute: states what one pass per host and AOS, or RemovalsCommuteOnSelected's weaker condition, is enough for.
- JWS, base64url, JCS beyond the chain record, thumbprints and certificates: a token is an ideal signed value with its text as a parameter.
- HTTP, A2A, MCP, SSE, DNS and TLS: transport failures are events of a run.
- SQLite and its faults: tables are maps, and a transaction is one step that cannot fail half way.
- SGP4, observer geometry, TLE parsing and the epoch-age check: elevation is any function from seconds to degrees or a fault, over real numbers.
- GetPassQuote's price arithmetic and 64-bit products: runs may store any valid quote.
- The attack battery, dashboard, LLM planner, trust-index client, configuration and command-line tools: drivers and thin clients.
- Rogue mode and the compromise switch: behaviour that drops the guarantees on purpose.
- Goroutine interleavings inside one handler: each lock-protected section is one step.
- 64-bit overflow of counters, event ids, scores and sums: integers are unbounded, except where strict decoding refuses integers above 2^53 - 1.
- Chain.EqualHeads: how a double writes a counter above 2^53 - 1 is a parameter, of which only what tells it from smaller counters is used.
- Event emission, free-text reasons and log lines: they do not feed back into any decision.
- Restarts of Ops or of a station: sessions and passes live in memory in the source, and a run covers one lifetime. Spacecraft restarts are modelled.
- Signing and validation of audit reports and receipts, and canary audits: a passive audit starts from what was verified.
- Background loops and timers: their ticks are events of a run.
- Booking.Book: the time is read once for the whole call, because the guarantees need book_pass to be one step.
- Monitor.Monitor.TickNow: the fetch and the decision are one step, so a cut that lands between them is ordered before or after.
- PassRun.CleanRunEqualChains: says nothing about runs with an Unavailable or Internal answer, for which equality is false and the subsequence result is what remains.
- Supplier.Adapter.BookFlight: JSON, JWS and key parsing are done before the model starts; case folding is a parameter; amounts are real numbers, so a max_amount text that reads as infinite or not a number is not modelled.
- Supplier.NeverTwiceIffDated: an iat beyond the 64-bit range is not modelled, because converting it is left open by the language.
- Passes.Predict: horizons are whole seconds; a fraction of a second changes no sample.
- Planner.ScheduleTable: the library's stable sort is a function with the same result, not its in-place merging.
