# Verification of the publishing worker

The system publishes videos to accounts by driving an app on an Android device that exists only
for the length of one job. Its hard guarantees are these, and this project models and proves them.

* **Egress.** A gateway container owns the network namespace a device lives in. A shell script pins
  that namespace to a tunnel: routing rules, a mangle rule and a filter chain. `NetKernel` is the
  kernel it runs on (rules, routes, marks, chains, and which modules are missing), `EgressPolicy`
  the script as a small command language with its interpreter, and `EgressRouting`, `EgressAcl` and
  `EgressGuarantees` what a run leaves behind: a compiler correctness proof that ends in a statement
  about packets.
* **Allocators.** A counter of concurrency slots per account (`RateLimiter`) and a lease per camera
  device (`CameraSlots`), both in Redis and both shared by any number of processes. Each is modelled
  twice: the operations as methods on the stored keys, and every interleaving of their Redis
  commands with a clock (`SlotSemaphore`, `CameraExclusion`).
* **Devices.** `Docker` is the host with the rule that a container whose namespace is borrowed
  cannot be removed; `DeviceProviders` acquires and tears down, with a failure possible at every
  step; `Reaper` is the sweep that finishes what a teardown could not.
* **Jobs.** `JobProtocol` interleaves deliveries, deferrals, failures, cancels, retries, crashes and
  recoveries of one job. `ProcessJob` is one delivery with its account's session, `HumanWait` the
  wait for an operator, `Creation` any number of requests creating jobs at once, `Recovery` and
  `Boot` what a worker does before it takes its first job.
* **Runs.** `UiFlow` interprets a flow, `Interpolation` fills in its placeholders, and `Publisher`
  chooses the flow, classifies what goes wrong and puts everything away.
* **Proxy URLs.** `UriComponent` is UTF-8 with percent-encoding (sections 2.1 and 2.3 of RFC 3986),
  `UserinfoSet` what a URL parser escapes in credentials, and `ProxyUrl` the printer and the parser
  (section 3.2 of RFC 3986 and the WHATWG authority rules).

Code that changes state in steps is a class whose methods say what the new state is; code that
computes is a function with lemmas; what happens between processes is a step relation with
statements over every run. Kernels, Docker daemons, Redis, schedulers, screens and operators are
parameters that may do anything the real ones may.

## What turned out not to hold

Each of these is proved as an exact condition or with a run that shows it.

* The filter's hook stays where it is when it is already in OUTPUT behind other rules, and those go
  first: what gets out is what they accept, or what they leave undecided and is declared
  (`LetOutIff`, `HookFirstIff`). The comment at `lib/android/egressPolicy.ts:123-125` promises that a
  second run is a no-op; that holds of everything (`Idempotent`).
* With `FWMARK` 0 the first routing rule selects every packet, and the device's traffic takes the
  bypass (`ForeignTunnelledIff`); where marks are cleared the filter lets it out (`ZeroMarkLeaks`).
  With a mark wider than sixteen bits the gateway loses its own bypass (`GatewayBypassIff`).
* A completed job is published again exactly when somebody is about to write its row who read it
  before: a retry, a listener about to write DEAD, or the recovery of another worker that boots
  meanwhile (`RepublishedIff`); each of them comes about from a job that is merely enqueued
  (`PublishedAgain`).
* A worker that dies between publishing and recording it publishes once more
  (`CrashPublishesAgain`); the status that a delivery checks first is not written yet.
* A recovered job runs on the queue's default budget, so in some run the row's verdict and the
  queue's differ, unless the two budgets are equal (`VerdictsAgreeIff`, `WrittenOffButRedelivered`).
* A job that stops being live while it holds a camera can lose its lease to a second one exactly when
  no container carried the index yet, or a reconciliation that did not see that container has still
  to come to the index (`SharedIff`, `StaleListingBreaksExclusion`). A job that runs again and is
  given an index can lose it exactly when a deletion of its old lease there is still on its way,
  because the release compares job ids and a job's runs share one (`LeasedAgainIff`,
  `LateReleaseBreaksExclusion`).
* A worker that boots while others hold slots can have more of them given out than there are exactly
  when the database shows fewer jobs running than hold a slot or are about to undo a refusal
  (`ReconcileBreaksLimitIff`).
* A minimum interval of more than fifteen minutes is not kept: the record of the last publication
  lapses before it is over (`IntervalKeptIff`).
* A video that was written to the device and then fails its size check or the media scan is not
  removed (`ForgottenIff`, `FileStaysIff`): the account's volume keeps it.
* A request can throw with its job in the queue, because enqueueing is two commands
  (`EnqueuedByItsInserter`, `EnqueuedButUnreported`).
* A wait that ends in "expired" is right that nobody had confirmed exactly when no confirmation lands
  while the answer of its last read is on its way (`ExpiryIsTrueIff`); for every timeout there is a
  wait in which one does (`LateConfirmationExpires`).
* An onboarding that is retried finds the confirmation of its earlier run still on the row and waits
  for nobody: its first read ends it, whatever the schedule (`LeftoverColumnAnswers`). The comment at
  `lib/onboarding/signal.ts:75` relies on the job id being new for each run, and a retry keeps it.
* The wait's last block is not shortened by the deadline: the expression at
  `lib/onboarding/signal.ts:144` is the configured time (`BlockMs`).
* A proxy URL on port 80 does not read back (`RoundTripIff`), and one whose credentials hold a stray
  percent sign raises instead of returning null (`ThrowsIff`, `TrailingPercent`).

## Model

| member | source | states |
|---|---|---|
| `EgressPolicy.PolicyFromEnv` | lib/android/egressPolicy.ts:63-92 | overrides are honoured and defaults are tun2socks' own; whatever they are the rules keep their order (bypass, second chance, local subnets, catch-all), above the kernel's local table and below netd's lowest |
| `EgressRouting.DrainStep` | lib/android/egressPolicy.ts:199 | the loop at the local preference ends, and leaves nothing there and everything else |
| `EgressRouting.LinkSteps` | lib/android/egressPolicy.ts:204-208 | each connected prefix gets one rule at the local preference, in order, and no other preference changes |
| `EgressRouting.LinksDistinct` | lib/android/egressPolicy.ts:204-206 | what is offered to `ip rule add` is every connected prefix that is not the tun's, once, in textual order, so none is refused for repeating itself |
| `EgressRouting.RoutingRun` | lib/android/egressPolicy.ts:181-210 | whenever the routing commands succeed, each of the script's preferences holds its own rule behind what a single delete left there, the local one holds the link rules and nothing else, and every other preference is untouched; with at most one leftover at each they succeed if and only if the kernel takes the rules |
| `EgressAcl.MangleRun` | lib/android/egressPolicy.ts:212-231 | the mangle step never fails; the clearing rule is present afterwards exactly when it was or the kernel can add it, and otherwise there is a warning |
| `EgressAcl.AclRun` | lib/android/egressPolicy.ts:235-259 | the filling of the chain succeeds exactly when the mandatory rules are taken, keeps the order of those taken, and warns of each optional one that is not |
| `EgressAcl.FirstMatch` | lib/android/egressPolicy.ts:235-265 | with the denial last, the chain lets a packet out exactly when one of the kept rules matches it |
| `EgressAcl.HitsDeclared` | lib/android/egressPolicy.ts:235-259 | the packets some kept rule matches are the declared set: loopback, tunnel, ADB replies, established, proxy endpoints, gateway's mark, control subnets |
| `EgressAcl.FilterRun` | lib/android/egressPolicy.ts:233-266 | the filter part succeeds exactly when chain, rules, denial and hook are all taken, and leaves the flushed chain refilled and hooked |
| `EgressGuarantees.FailClosed` | lib/android/egressPolicy.ts:233-266 | for every policy, kernel and namespace whose OUTPUT has the hook absent or first: a run that exits zero lets out the declared set and nothing else |
| `EgressGuarantees.HookFirstIff` | lib/android/egressPolicy.ts:266 | the hook is first afterwards if and only if it was absent or first before |
| `EgressGuarantees.LetOutIff` | lib/android/egressPolicy.ts:233-266 | for whatever was in OUTPUT: a packet gets out if and only if a rule before the hook accepts it, or none of those decides and it is declared |
| `EgressGuarantees.FinalMark` | lib/android/egressPolicy.ts:212-231 | the mark a packet is routed with, wherever the clearing rule stands among others: the gateway's is let by, any other is cleared, and the rules behind have the last word |
| `EgressGuarantees.OwnRules` | lib/android/egressPolicy.ts:181-210 | what the whole script leaves at each of its preferences, and that it leaves every other preference and all routes alone |
| `EgressGuarantees.RulesLeft` | lib/android/egressPolicy.ts:174-210 | the same rule by rule, from policy and routes alone: the bypass and the neighbours look up the table of the first default route that is not on the tun, or main when there is none; the second chance looks up main; the catch-all the tun's table; and the neighbours are exactly the connected prefixes off the tun |
| `EgressGuarantees.TunnelledUnlessMarked` | lib/android/egressPolicy.ts:63-71 | whatever rules sit above the catch-all, a packet without the gateway's non-zero mark that is not for a neighbour goes by the tunnel's table |
| `EgressGuarantees.BypassedWhenMarked` | lib/android/egressPolicy.ts:174-189 | a packet with the gateway's mark goes by the table of the first default route off the tun, and with mark zero every packet does |
| `EgressGuarantees.GatewayReachesUplink` | lib/android/egressPolicy.ts:159-187 | where there is such a route its table answers for every destination, so the gateway's own connection is routed, and off the tun if that table has nothing on it |
| `EgressGuarantees.NeighboursAreDirect` | lib/android/egressPolicy.ts:191-208 | an unmarked packet for a machine on a connected prefix goes by that table as well, whatever the tun's table has for it |
| `EgressGuarantees.NoLeak` | lib/android/egressPolicy.ts:127-268 | mangle, route lookup and filter together, for any gateway mark but zero that the rules behind the script's do not hand out: the device's packets take the tunnel, and what is let out another way is a declared exemption and not the device's |
| `EgressGuarantees.ForeignTunnelledIff` | lib/android/egressPolicy.ts:127-231 | the device's packets take the tunnel if and only if the gateway's mark is not zero and is not handed out behind the script's rule, whatever modules the kernel lacks |
| `EgressGuarantees.ZeroMarkLeaks` | lib/android/egressPolicy.ts:127-266 | with mark zero they take the bypass; the filter passes them as the gateway's own if and only if marks are cleared, and otherwise only what is declared |
| `EgressGuarantees.GatewayBypassIff` | lib/android/egressPolicy.ts:132-189 | the gateway's own connection reaches the bypass if and only if its mark survives: marks are not cleared, or it fits in sixteen bits and the rules behind leave it |
| `EgressGuarantees.SecondSucceeds` | lib/android/egressPolicy.ts:120-126 | a run in the namespace that a successful run left succeeds |
| `EgressGuarantees.SameRules` | lib/android/egressPolicy.ts:181-210 | and leaves the same rule list, rule for rule |
| `EgressGuarantees.Idempotent` | lib/android/egressPolicy.ts:120-126 | and the same namespace and the same output altogether |
| `EgressGuarantees.MissingModulesNeverFail` | lib/android/egressPolicy.ts:137-266 | when only modules are missing, the script fails if and only if there is no iptables backend at all |
| `EgressGuarantees.NothingWithoutBackend` | lib/android/egressPolicy.ts:137-154 | and without a backend it says so and has not touched the namespace |
| `EgressGuarantees.WarningsAreExact` | lib/android/egressPolicy.ts:229-258 | each warning is printed if and only if the rule it is about is not in the namespace |
| `EgressGuarantees.Warnings` | lib/android/egressPolicy.ts:303-306 | of the output, every warning as often as it was printed and nothing else |
| `EgressGuarantees.Gateway.ApplyEgressPolicy` | lib/android/egressPolicy.ts:278-317 | an error exactly when the script fails; otherwise the warnings are what is missing, and the filter is closed as in FailClosed |
| `RateLimiter.Redis.Reserve` | lib/worker/rateLimiter.ts:32-82 | succeeds if and only if the cooldown is over, also one stamped in the future, and a slot is left; counts one more exactly then; a refusal leaves the count, and every other account is untouched |
| `RateLimiter.IntervalKeptIff` | lib/worker/rateLimiter.ts:38-49 | the minimum interval after a publication is kept to its end if and only if it is no longer than the fifteen minutes its record lives, and nobody is held back longer |
| `RateLimiter.Redis.Release` | lib/worker/rateLimiter.ts:67-80 | gives the slot back once however often it is called, never below zero, and starts the cooldown |
| `RateLimiter.Redis.Touch` | lib/worker/rateLimiter.ts:85-87 | renews the key's lifetime and leaves the count |
| `RateLimiter.Redis.ReconcileAccountSlots` | lib/worker/rateLimiter.ts:103-129 | afterwards every listed account counts what is running, with the lifetime it had where it did already, no key where that is nothing and a fresh lifetime otherwise; the result is how many did not; a second call would correct none |
| `SlotSemaphore.SemaphoreSafety` | lib/worker/rateLimiter.ts:51-87 | at every instant of every run: the counter is the holders plus the refusals not yet undone, the limit holds, nobody has to clamp, and the key outlives its holders |
| `SlotSemaphore.RunKeepsInv` | lib/worker/processJob.ts:119-138 | the invariant that carries it holds along every run in which the heartbeat beats |
| `SlotSemaphore.StepKeepsInv` | lib/worker/rateLimiter.ts:51-87 | each Redis command and each tick keeps it, also beside a count that a reconciliation set too high |
| `SlotSemaphore.ReserveIsTheCall` | lib/worker/rateLimiter.ts:51-60 | the interleaved commands are those of the call: alone, a reservation leaves the key as `Reserve` does, let in or undone |
| `SlotSemaphore.ReleaseIsTheCall` | lib/worker/rateLimiter.ts:72-77 | and a release, with its clamp, as `Release` does |
| `SlotSemaphore.LetInBesideIff` | lib/worker/rateLimiter.ts:54-56 | with every slot held, one more is let in if and only if the key has lapsed, and then every holder has missed its heartbeat |
| `SlotSemaphore.ReconcileBreaksLimitIff` | lib/worker/rateLimiter.ts:103-129 | after a rewrite while slots are held, some run in which the heartbeat beats gives out more slots than the limit if and only if the rewrite counted less than the holders and the refusals not yet undone |
| `SlotSemaphore.UndercountExceeds` | lib/worker/rateLimiter.ts:51-65 | whatever the state, a counter below what is held lets them in until there are too many |
| `CameraSlots.Redis.AcquireCameraSlot` | lib/android/cameraSlots.ts:124-156 | leases the first free index of the pool, or refuses exactly when none is free and leases nothing |
| `CameraSlots.Redis.Release` | lib/android/cameraSlots.ts:141-151 | frees the lease once, only while this job holds it, and no one else's |
| `CameraSlots.Redis.ReconcileCameraSlots` | lib/android/cameraSlots.ts:170-205 | frees exactly the leases of the pool that no container carries and whose job is known to be gone, each once |
| `CameraSlots.LeaseIsAnHourLonger` | lib/android/cameraSlots.ts:34-36 | a lease is whole seconds, an hour beyond the onboarding timeout and less than a second more |
| `CameraExclusion.LeaseOutlivesHold` | lib/android/cameraSlots.ts:34-36 | the lease outlives the longest a job can hold a device, for every onboarding timeout and any teardown under forty-five minutes |
| `CameraExclusion.StepKeeps` | lib/android/cameraSlots.ts:124-205 | each command of acquire, release and reconcile keeps leases with the runs that use them, also when one job has several runs and leases |
| `CameraExclusion.StaysSafe` | lib/android/cameraSlots.ts:124-205 | and keeps each run safe by itself, whatever becomes of the others |
| `CameraExclusion.RunKeeps` | lib/android/cameraSlots.ts:124-205 | and so does every run of the system |
| `CameraExclusion.MutualExclusion` | lib/android/cameraSlots.ts:124-156 | no index is in the possession of two runs, of two jobs or of one that was delivered again, at any instant of any run of the system in which a job that stops being live has a container that accounts for its camera, and none is given an index to which a deletion of its old lease is on its way |
| `CameraExclusion.LeaseKeptWhileUsed` | lib/android/cameraSlots.ts:42-61 | no expiry, release or reconciliation takes a lease from a run that is using its device |
| `CameraExclusion.LeaksAreBounded` | lib/android/cameraSlots.ts:26-36 | in any run, orderly or not, a lease that nobody gives back is gone when its lifetime is over |
| `CameraExclusion.SweepIsTheCall` | lib/android/cameraSlots.ts:170-205 | with nobody in between, the interleaved commands of a reconciliation do at each index what the call does |
| `CameraExclusion.SharedIff` | lib/android/cameraSlots.ts:170-206 | when the job of a safe run that holds a device stops being live, an otherwise orderly continuation gives its index to a second run if and only if no container carries it, or a reconciliation that did not see one is at the index or has still to come to it; other runs need not be safe |
| `CameraExclusion.LeasedAgainIff` | lib/android/cameraSlots.ts:141-151 | the index a run is given can come into the possession of a second run if and only if the release of an earlier run of its job, or a reconciliation that found the job not live, is on its way to that index |
| `CameraExclusion.StaleListingBreaksExclusion` | lib/android/reaper.ts:98-138 | the first comes about: list, lease, label, and the job's cancellation can cost it the lease |
| `CameraExclusion.LateReleaseBreaksExclusion` | lib/android/cameraSlots.ts:141-151 | and the second: a run that has put its device away, a reconciliation that frees its lease, and the job's next run on the same index before the first has released |
| `Docker.NamesApart` | lib/android/emulatorProvider.ts:181-183 | one job's device, gateway and bridge have different names, for every job id |
| `Docker.EmulatorNamesCollideIff` | lib/android/emulatorProvider.ts:181-183 | two jobs share a container name if and only if their ids agree in the first forty-seven characters and are at least that long |
| `Docker.Host.Run` | tests/helpers/fakeDocker.ts:59-84 | starts the container exactly when the name is free and the daemon willing, and otherwise changes nothing |
| `Docker.Host.Remove` | tests/helpers/fakeDocker.ts:124-150 | removes the container exactly when nothing is inside its namespace; an absent name is no error |
| `Docker.Host.ListByLabel` | tests/helpers/fakeDocker.ts:152-156 | every owned container, once |
| `DeviceProviders.StartProxyGateway` | lib/android/proxyGateway.ts:165-262 | up exactly when every step of its own works; a gateway that does not stay up leaves nothing behind |
| `DeviceProviders.StartCameraBridge` | lib/android/cameraBridge.ts:127-192 | the same of the camera bridge |
| `DeviceProviders.Acquisition.Teardown` | lib/android/emulatorProvider.ts:241-278 | removes exactly what is held, frees the camera only when device and bridge are gone, is refused nothing by the namespace rule, touches nothing else, and may run again |
| `EmulatorProvider.LendCamera` | lib/android/emulatorProvider.ts:281-309 | a lease and a bridge exactly when publisher, pool and bridge allow it; what a failure leaves is in the acquisition for the teardown |
| `EmulatorProvider.BringUp` | lib/android/emulatorProvider.ts:280-382 | works exactly when every step does, and then device, gateway and bridge are labelled, networked and placed as the configuration asks; on the way out it holds all that it started |
| `EmulatorProvider.Attempt` | lib/android/emulatorProvider.ts:280-390 | whichever step fails, what was started is gone again, no lease is left and no removal was refused |
| `EmulatorProvider.Acquire` | lib/android/emulatorProvider.ts:219-391 | a device exactly when nothing fails and no other run of the account is under way: labelled with its job, account, role and camera, inside the gateway's network if and only if there is a proxy, with the gateway up, borrowed and the job's own, and the bridge carrying the same camera; a failure leaves none of the job's containers that were touched, every other container and every lease as before, and the camera given back last |
| `EmulatorProvider.RunOnDevice` | lib/publisher/android.ts:565-627 | a run that gives its device back in the end leaves the host as it was, however the flow went |
| `RedroidProvider.Acquire` | lib/android/redroidProvider.ts:168-312 | the same for the provider without a camera, the device inside its gateway if and only if there is a proxy |
| `RedroidProvider.Start` | lib/android/redroidProvider.ts:190-311 | a gateway that does not come up removes itself, a device that does not takes the gateway with it |
| `Reaper.SweepOrder` | lib/android/reaper.ts:58-65 | the sweep's order is a rearrangement of the listing with every gateway after everything else |
| `Reaper.SweepIsStable` | lib/android/reaper.ts:58-65 | and the split is stable: two containers on the same side keep their order |
| `Reaper.SweepOne` | lib/android/reaper.ts:154-196 | a container's turn: gone, reported or skipped according to what is known about its job |
| `Reaper.ReapAndroidContainers` | lib/android/reaper.ts:140-209 | whatever the database answers at each container's turn: removes only what is owned, at least as old as the grace, and nobody's or of a job answered dead; reports and keeps an old one whose job could not be looked up; leaves young and live ones alone; and what may go goes unless the daemon is wedged or something is inside it that also stayed |
| `Reaper.DeadJobCollected` | lib/android/reaper.ts:52-65 | one pass leaves nothing owned of a dead job, device and gateway pairs included |
| `Reaper.ReconcileCameraLeases` | lib/android/reaper.ts:98-138 | frees exactly the leases that no owned container carries and whose job is known to be dead |
| `JobProtocol.NoCallAfterCompletion` | lib/worker/processJob.ts:79-139 | from a COMPLETED that nobody is about to overwrite, no sequence of steps calls the publisher again |
| `JobProtocol.OverStaysOver` | lib/jobs/service.ts:422-487 | nor does any command of a cancel, a retry or a recovery that begins after it make the job runnable again |
| `JobProtocol.RepublishedIff` | lib/worker/createWorker.ts:68-114 | a job just completed can be published again if and only if a retry has read it, a dead-letter write is due, or another worker's recovery has listed it and not yet written it, whether or not it found an entry to remove |
| `JobProtocol.WriteInFlightCalls` | lib/jobs/service.ts:453-487 | each of these writes alone leads to another call, by a run that is given |
| `JobProtocol.PublishedAgain` | lib/worker/createWorker.ts:68-114 | for each kind of write in flight, a run from a job that is only enqueued to a completed one with that write pending, and on to a second call of the publisher |
| `JobProtocol.ExactBudget` | lib/worker/createWorker.ts:178-229 | undisturbed, a job that always fails is DEAD after exactly its budget of publisher calls (all of them if transient, one if permanent), deferrals cost nothing, and until then something is still enabled |
| `JobProtocol.VerdictsAgreeIff` | lib/worker/processJob.ts:395-437 | in every run and at every settlement the row is FAILED if and only if the queue gives up: exactly when the two budgets are the same or the failures are permanent |
| `JobProtocol.FailureConsumesAttempt` | lib/worker/createWorker.ts:212-229 | what is left of the budget goes down with each failure, and the listener writes DEAD exactly when nothing is left |
| `JobProtocol.FirstFailure` | lib/worker/processJob.ts:106-136 | from delivery to settlement, one failing attempt: one call, one attempt used, and what row and queue each make of it |
| `JobProtocol.WrittenOffButRedelivered` | lib/worker/createWorker.ts:101-102 | a one-attempt job that was recovered, with an entry left in the queue or without, is FAILED after its attempt and is published once more |
| `JobProtocol.CancelSurvivesFailure` | lib/worker/processJob.ts:409-415 | a cancellation that lands while the publisher is at work outlasts its failure, and another attempt, if one is left, does not publish |
| `JobProtocol.CancelIs` | lib/jobs/service.ts:422-451 | with nobody in between, cancelling works exactly on a job that waits, is scheduled, runs or holds a device for a person, and takes its entry out of the queue unless a worker has it |
| `JobProtocol.RetryIs` | lib/jobs/service.ts:453-487 | and retrying exactly on one that has failed or is dead, which starts over on its own budget |
| `JobProtocol.RecoveryListsIff` | lib/worker/createWorker.ts:71-73 | a recovery looks at what is queued, scheduled or processing, and at nothing else |
| `JobProtocol.DeferralCostsNothing` | lib/worker/createWorker.ts:183-189 | a delivery that the limits turn away leaves the row and uses no attempt |
| `JobProtocol.CrashPublishesAgain` | lib/worker/processJob.ts:224-247 | a worker that dies after the publisher returned and before that is recorded publishes once more |
| `ProcessJob.Database.Process` | lib/worker/processJob.ts:79-139 | one delivery: the slot is kept if and only if the write that begins the attempt throws, and then nothing else has changed; a cancelled or completed job is left alone; a deferral, for a full account or a cooling one, changes nothing; and status, attempts, calls, session and what is thrown are what the run earned, a COMPLETED onboarding being one that verified |
| `ProcessJob.Database.RunOnboarding` | lib/worker/processJob.ts:254-393 | never leaves the account in ONBOARDING; VERIFIED and COMPLETED exactly when a person confirmed and the verify flow passed, CANCELLED exactly when the wait was cancelled, FAILED exactly when nobody came or the app disagreed; it throws in every case but verified, cancelled and abandoned, and finally when the app disagreed |
| `ProcessJob.Database.Onboard` | lib/publisher/android.ts:375-530 | an outcome exactly when no step throws, and the device released whenever it was acquired |
| `ProcessJob.Database.RunPublish` | lib/worker/processJob.ts:158-247 | COMPLETED exactly when the publisher returned |
| `ProcessJob.Database.HandleFailure` | lib/worker/processJob.ts:395-437 | a terminal status that is already there is kept; otherwise the job is failed or queued by what is left of its budget |
| `ProcessJob.Database.FailStranded` | lib/worker/createWorker.ts:36-66 | the boot's write keeps the account's history honest |
| `ProcessJob.Database.SelfHeal` | lib/jobs/service.ts:337-346 | so does the repair of a leftover ONBOARDING, which touches nothing while a job is in flight |
| `ProcessJob.VerifiedIsEarned` | lib/worker/processJob.ts:331-393 | over any history: an account that is VERIFIED owes it to a confirmation followed by a verify flow that passed |
| `ProcessJob.Database.CrashLeavesOnboarding` | lib/worker/processJob.ts:262-350 | a worker that dies anywhere inside an onboarding leaves the account in ONBOARDING, which the boot and the repair of leftovers are there to mend, and its history honest |
| `HumanWait.WaitForHuman` | lib/onboarding/signal.ts:95-169 | over every schedule of writes, pushes, losses, errors and aborts: the commands sent, where the wait ends and with what are those of the protocol (nothing read after an abort, a pop only before the deadline on an undecided row, a pause only after a failed pop), an aborted start sends nothing, and the outcome is justified by what was there, and in time |
| `HumanWait.WaitedIsWait` | lib/onboarding/signal.ts:113-164 | the loop as a recursion is such a wait, command by command |
| `HumanWait.AbortEndsIt` | lib/onboarding/signal.ts:114-116 | once aborted a wait sends at most one more command, a pop on a row just read, which fails, and is cancelled |
| `HumanWait.SignalEndsIt` | lib/onboarding/signal.ts:161-163 | a pop that answers is the last command, and the outcome is "confirmed" |
| `HumanWait.SignalIsTaken` | lib/onboarding/signal.ts:146-163 | a pop that finds a signal ends the wait as "confirmed", unless it fails or the wait is aborted |
| `HumanWait.ColumnEndsIt` | lib/onboarding/signal.ts:118-126 | a read sent when the column is set is the last command and answers "confirmed", whatever became of the push, unless it fails or the row is deleted under it |
| `HumanWait.ConfirmationGetsThrough` | lib/jobs/service.ts:385-420 | a confirmation while a pop blocks wakes it by its push at once; if the push is lost, the pop takes its block and the next read finds the column |
| `HumanWait.ExpiryIsNoAbort` | lib/onboarding/signal.ts:132-139 | "expired" means that the last command was a read, sent without an abort, that came back at or after the deadline and found the row undecided |
| `HumanWait.EndsExactly` | lib/onboarding/signal.ts:113-164 | which outcome goes with which ending: an error exactly when the last command is a read that failed, "confirmed" exactly on a signal or a column that read saw, "cancelled" exactly on an abort, a missing row or a cancelled one without the column, "expired" only at or after the deadline |
| `HumanWait.EndsJustly` | lib/onboarding/signal.ts:113-164 | from a start without a confirmation, "confirmed" means that a person did, "expired" and a cancellation read from the row that nobody had when they were read |
| `HumanWait.EndsInTime` | lib/onboarding/signal.ts:132-144 | the wait overruns its deadline by at most a block, a pause and the commands' latency, and "expired" rests on a read no older than one command |
| `HumanWait.ExpiryIsTrueIff` | lib/onboarding/signal.ts:118-138 | an expiry is right that nobody had confirmed if and only if no confirmation lands while the last read's answer is on its way |
| `HumanWait.LateConfirmationExpires` | lib/onboarding/signal.ts:118-138 | for every timeout and block there is a wait that expires though somebody has confirmed, and one that expires rightly |
| `HumanWait.LeftoverColumnAnswers` | lib/onboarding/signal.ts:124-126 | a column left over from an earlier run answers at the first read, unless that fails or the row is gone |
| `HumanWait.ReadJob` | lib/onboarding/signal.ts:42-47 | a read sees the world at one instant, and others write before and after it |
| `HumanWait.BlockingPop` | lib/onboarding/signal.ts:146-163 | a pop that answers was preceded by a confirmation, and one that comes back empty took its whole block |
| `HumanWait.OthersAreFaithful` | lib/jobs/service.ts:385-420 | the column and the list say "confirmed" only if someone confirmed, and the column never forgets |
| `HumanWait.BlockMs` | lib/onboarding/signal.ts:143-144 | the block does not depend on the time remaining |
| `Creation.GuardIff` | lib/jobs/service.ts:173-193 | the guard lets a request pass if and only if the account has no row of another key that is waiting or running with the same video, or, for an onboarding, none that is not over; what it is refused with is such a row |
| `Creation.AloneCreates` | lib/jobs/service.ts:195-276 | with nobody in between, a new key that passes makes one row, SCHEDULED or QUEUED as asked, one queue entry and the answer that it was created |
| `Creation.AloneIsAnswered` | lib/jobs/service.ts:110-236 | a key in use is answered with its row, a blocked request with what blocks it and a lost race with the winner, and nothing else changes |
| `Creation.OneJobPerKey` | lib/jobs/service.ts:110-236 | over all interleavings of requests with one key: one row, one answer for all of them, at most one reports that it created it, and none does if the key was in use |
| `Creation.EnqueuedByItsInserter` | lib/jobs/service.ts:253-276 | only the request that inserted a job adds it to the queue, and once; a job reported as created is there; one that is there unreported has its request between the two commands of enqueueing, or thrown after the first |
| `Creation.EnqueuedButUnreported` | lib/jobs/service.ts:256-276 | a run in which the request throws and the job is in the queue |
| `Creation.LosersFindTheWinner` | lib/jobs/service.ts:219-231 | a request that hits the constraint always finds the row, and none is refused because of a row with its own key |
| `Creation.TwoKeysPublishTwice` | lib/jobs/service.ts:179-193 | with two keys the guard does not hold: a run that ends with the same video in the queue under two jobs, each reported as created |
| `Creation.RunKeepsInv` | lib/jobs/service.ts:94-236 | the invariant over every run, for publication and onboarding requests alike |
| `Recovery.Store.FailStrandedInteractiveJobs` | lib/worker/createWorker.ts:36-66 | exactly the stranded rows are FAILED and exactly their accounts are back at NONE |
| `Recovery.Store.Requeue` | lib/worker/createWorker.ts:82-111 | each candidate without a live entry gets one fresh one, due at its own time; live ones are untouched |
| `Recovery.Store.RecoverOrphans` | lib/worker/createWorker.ts:68-114 | status by status: COMPLETED, FAILED, CANCELLED and DEAD rows keep row and entry, AWAITING_HUMAN and VERIFYING fail, and QUEUED, SCHEDULED and PROCESSING end with an entry that is active, waiting or delayed, their own if it was; the result counts what there was to recover |
| `Recovery.FollowsProtocol` | lib/worker/createWorker.ts:71-111 | what it does to any job is what the job protocol's recovery does command by command, and to one that is over nothing |
| `Recovery.ScheduleSurvives` | lib/worker/createWorker.ts:92-102 | over any number of boots and losses of the queue, a job that was to run is in it after each, due at the time its row was created with or at the boot that put it back, before neither, and on the default budget |
| `Recovery.NothingLeft` | lib/worker/createWorker.ts:68-114 | a second recovery finds nothing |
| `Recovery.RecoveryIsIdempotent` | lib/worker/createWorker.ts:68-114 | and leaves rows and queue as they are |
| `Boot.ReconcileSlots` | lib/worker/createWorker.ts:121-138 | every account counts its running rows |
| `Boot.StartContainerReaping` | worker/index.ts:27-48 | of owned containers only live jobs' are left and all of theirs are; unowned ones are untouched; a lease is freed if and only if it is on a camera of the pool, no surviving container carries it and its job is not live |
| `Boot.StartUp` | worker/index.ts:81-101 | the four steps in order: jobs and queue agree, slots and containers say what the jobs say, exactly the abandoned leases are freed, unowned containers stay, and what still counts as running is PROCESSING and queued |
| `Boot.RunningIsQueued` | lib/worker/createWorker.ts:68-114 | after recovery a job that is still running was so before and is live in the queue |
| `Boot.RecoveryComesFirst` | worker/index.ts:96-99 | a sweep that ran before recovery would keep a stranded job's container, and a count its slot |
| `UiFlow.Session.RunUiFlow` | lib/android/uiFlow.ts:165-290 | returns exactly when every step did its job or may be passed over; otherwise the failure is the first such step's, and nothing was sent for a later one |
| `UiFlow.Session.RunStep` | lib/android/uiFlow.ts:186-285 | one step's outcome, the commands it sent up to the one that failed, and what it captured |
| `UiFlow.Session.Interact` | lib/android/uiFlow.ts:255-283 | taps, types or reads an element that was found, and succeeds exactly when each command does |
| `UiFlow.SuccessCannotLie` | lib/android/uiFlow.ts:70-79 | a result accounts for every step once, each assertion held and there was one, and only optional taps and typing whose element was absent were passed over |
| `UiFlow.ReturnedSends` | lib/android/uiFlow.ts:255-283 | a run that returns has sent, for each step it did not pass over, a click, or a click, the clearing that was asked for and the interpolated text, in the order of the flow, and nothing else |
| `UiFlow.SumSplits` | lib/android/uiFlow.ts:288 | the total time is the sum of the steps' |
| `Interpolation.Recognized` | lib/android/uiFlow.ts:130-134 | whatever looks like a placeholder is read as one, with its name and its length |
| `Interpolation.RecognizedOnly` | lib/android/uiFlow.ts:130-134 | and nothing else is |
| `Interpolation.KnownIsReplaced` | lib/android/uiFlow.ts:125-134 | a known name becomes its value exactly; braces inside the value are not expanded |
| `Interpolation.LiteralIsKept` | lib/android/uiFlow.ts:130-134 | text in which no placeholder begins is typed as it stands, and what follows is looked at on its own |
| `Interpolation.UnknownIsKept` | lib/android/uiFlow.ts:125-134 | with none of its names known, a text is typed as it stands |
| `Interpolation.OnlyMentionedMatter` | lib/android/uiFlow.ts:130-134 | values of names that a text does not mention do not change it |
| `Publisher.SelectFlow` | lib/publisher/android.ts:169-191 | a name that is configured is that flow, one that is not is refused and never replaced by another, and the default is an explicit `upload` if there is one |
| `Publisher.AndroidPublisher.Publish` | lib/publisher/android.ts:532-627 | a result exactly when nothing throws and the chosen flow ran to its end; otherwise the classification of the first failure; in every case what was taken, what was put away, and which files are left on the volume |
| `Publisher.AndroidPublisher.Prepare` | lib/publisher/android.ts:565-590 | how far a run got, and what of it the `finally` will know of |
| `Publisher.AndroidPublisher.StageMedia` | lib/publisher/android.ts:689-714 | a push that throws leaves a file or not; one that works and then fails its check leaves it |
| `Publisher.ForgottenIff` | lib/publisher/android.ts:611-626 | at whatever stage a run fails, sessions and devices are given back, the device last, and the remote file's removal is not asked for if and only if staging threw after it was written |
| `Publisher.FileStaysIff` | lib/publisher/android.ts:619-621 | and the file stays on the volume if and only if that happened or the removal failed; no other file is touched |
| `Publisher.LeakEndsTheJob` | lib/publisher/android.ts:316-321 | an egress leak, found while the device is acquired or at any later stage, leaves the job FAILED and its queue entry exhausted whatever is left of its budget |
| `Publisher.NoDeviceIsRetriedIff` | lib/publisher/android.ts:629-670 | any other failure to obtain a device, also one that is final elsewhere, has the job wait for another attempt if and only if one is left |
| `Publisher.AcquireFailureEndsIff` | lib/publisher/android.ts:629-670 | with attempts left, a failure to obtain a device ends the job if and only if it is a missing app, a leak or classified as final; these and an unreachable egress are reported as what they are, anything else as a device that is not ready |
| `Publisher.FlowFailureEndsIff` | lib/publisher/android.ts:329-338 | of the failures of a flow, a selector that does not match ends the job and nothing else does while attempts are left |
| `Publisher.FinalEndsIff` | lib/publisher/android.ts:307-360 | of everything that can be thrown, with attempts left: a missing app, a leak, a selector that does not match, a request Appium rejects in a live session and a command ADB rejects end the job, and nothing else does that was not classified so |
| `Publisher.UnclassifiedIsRetried` | lib/publisher/errors.ts:43-45 | and what is thrown before anybody classifies it waits for another attempt while one is left |
| `Publisher.CodesTellApart` | lib/publisher/android.ts:307-360 | two causes with the same code are retried alike, leaks and UI steps are never confused with anything else, and the codes of ADB, Appium's transport, the proxy and a missing app name their cause |
| `Publisher.RemotePathsApart` | lib/publisher/android.ts:221-232 | two jobs push to the same remote path if and only if they are the same job |
| `Publisher.ExtensionIsKept` | lib/publisher/android.ts:228-232 | the job's id goes between the file's name and its extension |
| `Publisher.NameIsExtended` | lib/publisher/android.ts:225-232 | or behind a name that has none, whatever dots its directories have |
| `Publisher.IdIsFilledIn` | lib/publisher/android.ts:221-223 | or where the configured path asks for it |
| `UriComponent.RoundTrip` | lib/proxy/config.ts:185-193 | decoding undoes encoding for every string of Unicode scalar values |
| `UriComponent.Utf8RoundTrip` | lib/proxy/config.ts:185-193 | and UTF-8 does for every scalar value, one to four bytes long |
| `UriComponent.EncodedIsPlain` | lib/proxy/config.ts:178-184 | nothing that could move a boundary of the URL survives the encoding |
| `UriComponent.AsciiIs` | lib/proxy/config.ts:185-193 | of ASCII, exactly letters, digits and nine marks are left as they are |
| `UserinfoSet.DecodeSeesThrough` | lib/proxy/config.ts:231-245 | decoding what the URL parser made of credentials gives what decoding them as pasted gives, and fails if and only if that fails |
| `ProxyUrl.CheckedHost` | lib/proxy/config.ts:66-109 | a host that passes the form's check is one the URL parser gives back as it is |
| `ProxyUrl.NamesAreHosts` | lib/proxy/config.ts:66-109 | every domain name and IPv4 address is such a host |
| `ProxyUrl.LiteralsAreHosts` | lib/proxy/config.ts:66-109 | and every IPv6 literal in its brackets |
| `ProxyUrl.HostAndPortRoundTrip` | lib/proxy/config.ts:185-193 | host and port are split where they were joined, IPv6 literals included |
| `ProxyUrl.ParseUserinfo` | lib/proxy/config.ts:226-234 | of several `@` the last one separates |
| `ProxyUrl.ParsePrinted` | lib/proxy/config.ts:185-245 | what the URL parser finds in a printed authority |
| `ProxyUrl.RoundTripIff` | lib/proxy/config.ts:185-245 | a valid configuration reads back as itself, whatever its credentials hold, unless its port is 80: then nothing is recognized |
| `ProxyUrl.RedactedReadsBack` | lib/proxy/config.ts:195-198 | the logged form keeps type, host, port and username, with or without credentials, and does not depend on the password |
| `ProxyUrl.PortIsNeeded` | lib/proxy/config.ts:235-237 | a URL that names no port is not recognized |
| `ProxyUrl.PortIsBounded` | lib/proxy/config.ts:226-233 | nor is one whose port is beyond the last |
| `ProxyUrl.ThrowsIff` | lib/proxy/config.ts:216-246 | reading a URL raises, for every scheme that is recognized and whatever its credentials are spelled with, if and only if its port shows and its username or password holds a malformed escape |
| `ProxyUrl.TrailingPercent` | lib/proxy/config.ts:244-245 | such as any password that ends in a percent sign |
| `ProxyUrl.ShortFormIff` | lib/proxy/config.ts:249-267 | the colon-separated form is read field by field, unless the password has a colon |
| `ProxyUrl.FieldsAreRead` | lib/proxy/config.ts:249-267 | any colon-separated text that is no URL is recognized if and only if it has two to four fields of which the second is a port, and each field is read where it stands |
| `ProxyUrl.SchemeIsSpelled` | lib/proxy/config.ts:185-193 | the URL begins with `http://` or `socks5://` by the proxy's type |

## Left out

- EgressRouting.RoutingRun: the masks of `ip rule fwmark` and of the iptables matches are the ones the script uses, the whole mark and its low sixteen bits, not arbitrary ones.
- EgressGuarantees.FailClosed: speaks of the state a run ends in, because a run that repeats flushes the chain before it refills it.
- EgressGuarantees.Idempotent: asks that at most one rule was left at each preference that is deleted once, since `ip rule del` removes one rule at a time.
- SlotSemaphore.SemaphoreSafety: takes INCR and the EXPIRE after it as one step, no process to crash between them, and no worker to boot meanwhile; ReconcileBreaksLimitIff says when one may.
- SlotSemaphore.ReconcileBreaksLimitIff: takes the read and the write of one key by a reconciliation as one step.
- RateLimiter.Redis.Reserve: the minimum interval is stated for one process at a time: two that read the last publication before either counts itself are both let in.
- CameraExclusion.MutualExclusion: asks that a job which stops being live is not exposed, and that a job is not given an index to which a deletion of its old lease is on its way; SharedIff and LeasedAgainIff say what happens if not. The device of a crashed run is taken to be swept before its hold time is over, and each delivery leases one camera, as the code does.
- Docker.Host.Run: a `docker run` that fails half-way leaves nothing, as in the repository's own fake.
- EmulatorProvider.Acquire: finding the serial and waiting for the device are single steps that work or fail; their polling is not modelled, nor are volumes, ports and command lines.
- DeviceProviders.Acquisition.Teardown: takes `docker rm` of a daemon that is not wedged to succeed; when one fails the container is left to the sweep, and the camera is given back all the same.
- JobProtocol.NoCallAfterCompletion: one delivery is active at a time. CANCELLED is not terminal under races, and no statement says it is. The writes that fail a stranded interactive job are in Recovery: a publication is never in the statuses they look for.
- JobProtocol.ExactBudget: a failure before the publisher is reached uses an attempt without a call, and is left out of the exact count.
- ProcessJob.Database.Process: database writes after the one that begins the attempt succeed, and the removal of the scratch directory does not throw.
- ProcessJob.Database.RunOnboarding: the device endpoint is not cleared on the exception path, and no statement says it is.
- Recovery.Store.RecoverOrphans: one worker, and queue and database available. It re-queues PROCESSING interactive jobs like any other, as the code does.
- Boot.StartUp: a daemon and a database that answer, containers that carry no future creation time, and no job whose id is empty.
- HumanWait.WaitForHuman: takes what others do and how each command goes as a schedule; the polling interval must be positive, since Redis blocks forever on zero. That "confirmed" means a person did is for a row and a list that start without a confirmation.
- UiFlow.Session.RunUiFlow: what an element search does inside its timeout is one answer; log lines and the timing of a step that throws are not kept.
- Publisher.AndroidPublisher.Publish: closing a session and giving a device back are requests whose own failure is swallowed, as in the code; what a device's release does is DeviceProviders'.
- ProxyUrl.ThrowsIff: credentials without tabs and line breaks, which the URL parser drops.
- ProxyUrl.RoundTripIff: what a URL parser makes of a host is a parameter that gives back no separators; timezone and locale are not printed and so not read.
- Retry-after hints: an error may carry one, and the comment at `lib/publisher/errors.ts:33` says that it is honoured exactly; the code only logs it, so the model has none.
- The text of the script as a shell, awk and iptables parse it, and the discovery commands' own output formats.
- Pages, API routes, server-sent events, camera signalling and dashboards: interface and transport.
- Calls to ADB, Appium, ffprobe, object storage, DNS and geo lookups, except as steps that may fail.
- Encryption, password hashing, tokens and key rotation, which rest on library cryptography.
- Field validation, environment parsing, serializers, log redaction and command-line scripts: checks of one branch each.
