# Verified model of the Hyperledger Fabric operator's stateful cores

A Dafny model of the parts of the operator that hold real state-machine content, with proofs of what they keep.
`dafny verify dfyconfig.toml` checks the whole project.

| files | what they model |
|---|---|
| `ChannelConfig`, `ConfigTx`, `ChannelUpdate`, `Consenters`, `OrdererOrgs`, `HostPort`, `Delivery`, `MainChannel` | the main channel reconciler: the configuration, the edits it makes to a transaction step by step, the value they amount to, and what that leaves in terms of the spec |
| `Convergence` | repeated reconciles of one spec |
| `Follower`, `Interference`, `JointConvergence` | the follower reconciler; both reconcilers submitting against configuration versions, and the joint fixpoint they reach |
| `ChannelSpec`, `Migration` | the staged raft-to-BFT migration script running beside the operator |
| `LeaseProtocol`, `LeaseClient` | the lease lock, as atomic steps and as the two methods under interference |
| `CertRenewal`, `PeerCrypto` | when certificates are renewed, under which lease, and what happens to certificates and keys |
| `Conditions`, `Ordering` | the condition list as a map, its transition times, its canonical serialization |
| `NetworkConfig` | the peer and orderer filters and the `OrganizationConfig` rewrite |
| `CertificateAuthority` | the CA's decision to regenerate its TLS certificate |
| `Attributes`, `Text`, `Wrappers` | the command line's attribute strings; splitting and joining; optional values and outcomes |

Code that edits state is modelled by methods (on classes where the source has objects) proved against functions; the
main results are lemmas about those functions and about runs of steps, over all inputs and all interleavings.

Times are integers in nanoseconds. `metav1.Time` values lose their fraction of a second and `MicroTime` values their
fraction of a microsecond when the operator stores them; a request keeps the fraction its manifest was written with. Integers are unbounded except for `strconv.Atoi`, which is 64-bit.
`net.SplitHostPort`, `strconv.Atoi` and `strings.Split` follow the Go standard library. The clock, random keys, the
answers of API server, CA and ordering service, and the order of Go map iteration are parameters or arbitrary choices.

## Where the code differs from what it says

- The BFT consenter mapping is refused with "needs to be at least 4" (mainchannel_controller.go, 957-959), but the test
  is `<= 4`: five are needed, so a channel of four orderers cannot be migrated (`Migration.BftReachableIffFiveOrderers`).
- The migration script's state waits log a time-out and return as if they had succeeded; the other two waits throw.
  `Migration.SafeDespiteTimeOutIffNoV3Yet` says exactly when that is harmless.
- Even without time-outs the migration can change the consensus type while the capability is missing, when the channel
  has V3_0 and its spec does not (`Migration.SafeIffCapabilitiesInStep`).
- The five-minute margin that is to keep a manual renewal from repeating is lost for requests with a fraction of a
  second, because the recorded time is stored in whole seconds (`CertRenewal.RenewsOnceIffWholeSecond`).
- Orderer endpoints are compared in printed form. A bracketed IPv6 endpoint is stored without its brackets and then
  cannot be read again, which stops every later reconcile (`OrdererOrgs.BracketedEndpointGetsStuck`).
- Outside a renewal, new material is meant for a peer that has none, but any failure to read a stored pair counts as
  none stored: one failed API call or unreadable secret makes the next upgrade enrol and store a new key (`PeerCrypto.PlainUpgradeKeepsIff`,
  `PeerCrypto.FailedReadReplacesKey`). A certificate authority replaces its TLS certificate in the same way
  (`CertificateAuthority.RenewalSettles`).
- Which peers an organization's entry of a network config holds can depend on Go's map order
  (`NetworkConfig.EntryOrderFreeIff`).
- Orderer capabilities are meant to be replaced, but only the wanted ones are removed before they are added, so the
  result is the old ones together with the wanted ones.
- Renewing a lease does not write the duration it was asked for; the stored one goes on to count.
- A TLS certificate of the CA is not renewed when only its IP addresses are off.

## Model

| member | source | states |
|---|---|---|
| `Convergence.ThirdSubmitsNothing` | controllers/mainchannel/mainchannel_controller.go:610-681 | From any channel configuration whatever, for any spec with address-unique consenters, and counting a failing reconcile as one that submits nothing, the third reconcile submits nothing |
| `Convergence.KeepsSucceedingIffReady` | controllers/mainchannel/mainchannel_controller.go:1341-1747 | Three reconciles in a row succeed if and only if there is no BFT-to-raft downgrade, the endpoints of the kept orderer organizations can be read, and the wanted ones can be read back in the form they are stored in |
| `Convergence.TwoReconcilesSettle` | controllers/mainchannel/mainchannel_controller.go:610-644 | When that condition holds, two reconciles reach a fixpoint in each of the four current/desired maintenance combinations |
| `Convergence.SteadyMeetsSpec` | controllers/mainchannel/mainchannel_controller.go:1341-1747 | A fixpoint has the wanted state, channel capabilities, consensus type and metadata, consenter set, policies, organization names, batching, and (in normal state) application group, capabilities and ACL entries |
| `Convergence.OneReconcileIsNotEnough` | controllers/mainchannel/mainchannel_controller.go:622-633 | Two is tight: leaving maintenance with a changed application group always needs a second update |
| `Convergence.OrdererSettles` | controllers/mainchannel/mainchannel_controller.go:1455-1747 | The orderer group is stable from the second pass on |
| `Convergence.ApplicationSettles` | controllers/mainchannel/mainchannel_controller.go:1341-1430 | The application group is stable from the first pass on |
| `Consenters.ConsentersExact` | controllers/mainchannel/mainchannel_controller.go:1475-1527 | From any current list, the resulting consenters (host, port, both certificates) are exactly the address-unique wanted ones; those left alone come first, in their old order |
| `Consenters.ConsentersSettle` | controllers/mainchannel/mainchannel_controller.go:1475-1527 | After one pass every consenter is found unchanged and every wanted address present, so a second pass adds and removes nothing |
| `Consenters.ConsentersNotRepeated` | controllers/mainchannel/mainchannel_controller.go:1499-1526 | Consenters not repeated on the channel are not repeated afterwards, whatever the spec repeats |
| `MainChannel.UpdateConsenters` | controllers/mainchannel/mainchannel_controller.go:1475-1527 | The nested loops with their `deleted`, `needsUpdate` and `found` flags, edited step by step on the transaction, leave the list the two lemmas above are about, and touch nothing else of the orderer group |
| `OrdererOrgs.OrdererOrgsExact` | controllers/mainchannel/mainchannel_controller.go:1621-1700 | Resulting names are the wanted names; a new organization is as wanted; a kept one whose endpoints are canonical ends with exactly the wanted endpoints and revocations, and nothing else of it changes |
| `OrdererOrgs.OrdererOrgsSettle` | controllers/mainchannel/mainchannel_controller.go:1621-1700 | Two passes over the orderer organizations reach a fixpoint |
| `OrdererOrgs.OrgsReadyIff` | controllers/mainchannel/mainchannel_controller.go:1642-1691 | Passes keep going through if and only if kept endpoints can be read and every wanted endpoint names a host without colons |
| `OrdererOrgs.BracketedEndpointGetsStuck` | controllers/mainchannel/mainchannel_controller.go:1650-1685 | The failing case: a new organization with endpoint `[::1]:1` passes twice and then stops every later reconcile, because it is stored as `::1:1` |
| `OrdererOrgs.OrdererOrgsFailOnlyOnBadEndpoints` | controllers/mainchannel/mainchannel_controller.go:1648-1685 | For distinct wanted names a single pass succeeds if and only if all endpoints of organizations present on both sides are well formed |
| `OrdererOrgs.RefreshShape` | controllers/mainchannel/mainchannel_controller.go:1642-1691 | A refresh keeps exactly the old endpoints that are not written the way the configuration prints them, then appends the wanted ones; of the MSP only the revocation list changes |
| `OrdererOrgs.RefreshAbsorbs` | controllers/mainchannel/mainchannel_controller.go:1642-1691 | A later refresh of an organization erases an earlier one |
| `OrdererOrgs.EndpointsNotRepeated` | controllers/mainchannel/mainchannel_controller.go:1669-1685 | Endpoints not repeated before a refresh are not repeated afterwards |
| `HostPort.CanonicalForm` | controllers/mainchannel/mainchannel_controller.go:1650-1663 | Split-then-print is the identity exactly on unbracketed `host:port` with the port in plain 64-bit decimal |
| `HostPort.ParsePrint` | controllers/mainchannel/mainchannel_controller.go:1650-1685 | Print-then-split returns every address whose host holds no colon or bracket |
| `HostPort.PlainSplits` | controllers/mainchannel/mainchannel_controller.go:1650-1653 | `host:port` splits when neither side holds a colon or a bracket |
| `HostPort.BracketedSplit` | controllers/mainchannel/mainchannel_controller.go:1650-1653 | `[host]:port` splits when the host holds no bracket |
| `HostPort.SplitIsPlainOrBracketed` | controllers/mainchannel/mainchannel_controller.go:1650-1653 | Nothing else splits |
| `HostPort.AtoiDecimal` | controllers/mainchannel/mainchannel_controller.go:1654-1657 | Parsing the decimal form of any 64-bit integer returns it |
| `MainChannel.UpdateApplicationOrganizations` | controllers/mainchannel/mainchannel_controller.go:1354-1382 | The remove and add loops: names become the wanted names, kept organizations are not rewritten, new ones are as wanted |
| `MainChannel.UpdateApplicationChannel` | controllers/mainchannel/mainchannel_controller.go:1341-1430 | The whole application edit: policies and capabilities replaced, organizations as above, wanted ACLs laid over the current ones |
| `MainChannel.UpdateChannelCapabilities` | controllers/mainchannel/mainchannel_controller.go:1432-1453 | Channel capabilities become exactly the wanted ones |
| `MainChannel.RefreshOrganization` | controllers/mainchannel/mainchannel_controller.go:1642-1691 | Endpoints cleared and refilled one at a time; the first malformed one, in that order, is the error |
| `MainChannel.UpdateOrdererOrganizations` | controllers/mainchannel/mainchannel_controller.go:1621-1700 | The organization loops of the orderer group, over an arbitrary order of the current organizations |
| `MainChannel.UpdateOrdererCapabilities` | controllers/mainchannel/mainchannel_controller.go:1726-1737 | Orderer capabilities become the old ones together with the wanted ones: stale ones survive, as the code removes only the wanted |
| `MainChannel.UpdateConsensus` | controllers/mainchannel/mainchannel_controller.go:1467-1602 | Raft and BFT branches; a BFT spec keeps every orderer policy but Admins, Writers and Readers, and keeps all of them when the channel switches from raft; state and batching are untouched for raft and set for BFT |
| `MainChannel.UpdateOrdererChannel` | controllers/mainchannel/mainchannel_controller.go:1455-1747 | The whole orderer edit, failing on the first malformed endpoint |
| `MainChannel.UpdateChannelConfig` | controllers/mainchannel/mainchannel_controller.go:599-681 | A reconcile against the ledger: what it submits, or finds in place, is what the spec asks for field by field; it fails exactly on a spec that cannot be mapped, on a return to raft, on a malformed endpoint of a kept organization or on a refusal, and then leaves the ledger untouched; only a difference is submitted, in a single version step |
| `Delivery.ReconcileDelivers` | controllers/mainchannel/mainchannel_controller.go:816-1185 | In fields of the spec and of the channel before: BFT mapping and options or raft consenters and options, state, orderer organizations with endpoints and revocations, each orderer policy, batching, capabilities of all three levels, application organizations, policies and every ACL entry; what the spec does not name stays |
| `Delivery.FailsIffObstructed` | controllers/mainchannel/mainchannel_controller.go:1642-1685 | A mapped spec fails if and only if it goes back to raft or a kept orderer organization has a malformed endpoint on either side |
| `Delivery.MappableIff` | controllers/mainchannel/mainchannel_controller.go:951-1036 | A spec can be mapped if and only if it is raft, or BFT with more than four consenters |
| `MainChannel.Ledger.SaveChannel` | controllers/mainchannel/mainchannel_controller.go:667-677 | An update counts only against the current configuration version |
| `ChannelUpdate.MaintenanceFreezesApplication` | controllers/mainchannel/mainchannel_controller.go:619-626 | A reconcile that starts or ends in maintenance leaves the application group alone |
| `ChannelUpdate.EnteringTouchesOrdererOnly` | controllers/mainchannel/mainchannel_controller.go:619-635 | A reconcile that enters maintenance changes nothing outside the orderer group |
| `ChannelUpdate.ReconcileDecides` | controllers/mainchannel/mainchannel_controller.go:1603-1620 | State, consensus type, capabilities and organization names after a reconcile, and that BFT is never left |
| `Interference.GateHoldsOverRuns` | controllers/mainchannel/mainchannel_controller.go:619-635 | Both gate rules for every accepted main update in any run, with arbitrary spec edits and follower activity in between |
| `Interference.FollowersStayOutOfMaintenance` | controllers/followerchannel/followerchannel_controller.go:256-259 | In any run no follower update is accepted in maintenance, whenever it was computed |
| `Interference.MaintenanceHoldsApplication` | controllers/mainchannel/mainchannel_controller.go:619-626 | While a channel is in maintenance its application group stands still, whoever reads and submits |
| `Interference.BftRunsKeepPolicies` | controllers/mainchannel/mainchannel_controller.go:1582-1602 | In any run under BFT specs, however edited and with any follower activity, every orderer policy but Admins, Writers and Readers stays, present or absent, as it was |
| `Interference.FollowerUpdateSurvives` | controllers/followerchannel/followerchannel_controller.go:256-319 | After an accepted follower update, whatever is read, submitted or in flight, its organization keeps exactly that update's anchor peers and revocation list, as long as the main specs read since list it and its own follower reads nothing new |
| `Interference.RecordSurvives` | controllers/mainchannel/mainchannel_controller.go:1354-1382 | The whole record of a listed organization survives any run of updates by others |
| `Interference.FollowerKeepsMainSteady` | controllers/followerchannel/followerchannel_controller.go:260-319 | A follower update leaves a configuration on which the main reconciler still has nothing to change |
| `JointConvergence.EveryFairRunConverges` | controllers/mainchannel/mainchannel_controller.go:610-681 | With one fixed main spec and fixed follower specs of distinct organizations: every run made of at least three stretches and one more per follower, in each of which every member reads and later submits that draft, in any order and with any drafts in flight, ends at a joint fixpoint, and the configuration then stays in every continuation |
| `JointConvergence.AcceptancesBounded` | controllers/mainchannel/mainchannel_controller.go:610-677 | In any run of such a team, of any length and order, at most two main updates are accepted, at most one of each follower, and at most their sum in all |
| `JointConvergence.AcceptancesLowerShare` | controllers/followerchannel/followerchannel_controller.go:256-358 | The accepted updates of an author together with what it may still submit never exceed what it could submit at the start: for the main spec its remaining updates when left alone, for a follower one if its record is not as wanted |
| `JointConvergence.IdleRoundIsFixpoint` | controllers/mainchannel/mainchannel_controller.go:637-644 | A stretch of a run with no acceptance in which every member reads and later submits that draft shows a joint fixpoint |
| `JointConvergence.UpdateLowersLeft` | controllers/followerchannel/followerchannel_controller.go:256-358 | Every accepted update, whoever made it, lowers what is left to change |
| `JointConvergence.FixpointInReach` | controllers/mainchannel/mainchannel_controller.go:610-681 | From any configuration and with any drafts in flight, some schedule of at most that many turns leads to a joint fixpoint |
| `JointConvergence.FixpointStays` | controllers/followerchannel/followerchannel_controller.go:330-358 | A joint fixpoint stays, whatever is still in flight and read again |
| `Interference.RunKeepsFaithful` | controllers/mainchannel/mainchannel_controller.go:610-677 | Any update that can still be accepted is what its author makes of the present configuration |
| `Follower.AnchorsExact` | controllers/followerchannel/followerchannel_controller.go:283-293 | Anchor peers end as exactly the wanted ones, each once |
| `Follower.ClearsAnchors` | controllers/followerchannel/followerchannel_controller.go:268-281 | Removing each anchor peer that was read leaves none |
| `Follower.ReplaceAnchors` | controllers/followerchannel/followerchannel_controller.go:268-293 | The remove and add loops replace the anchor peers and nothing else |
| `Follower.ReconcileFollower` | controllers/followerchannel/followerchannel_controller.go:256-358 | Succeeds only out of maintenance, with the organization on the channel and every revocation list readable, and then always when approved; success leaves the wanted anchors, each once and in order, the wanted revocations, and every other field of channel and organization as it was; failure leaves the ledger untouched; only a difference is submitted, in a single version step |
| `Follower.AllowedIff` | controllers/followerchannel/followerchannel_controller.go:256-305 | The three guards, in the fields they look at |
| `Follower.FollowerDelivers` | controllers/followerchannel/followerchannel_controller.go:268-313 | What an edit leaves, in the fields of the follower spec and of the channel before |
| `Migration.SafeIffCapabilitiesInStep` | scripts/migrate-channel-raft-bft.ts:146-249 | When no wait times out: the consensus type changes only in steps that start and end in maintenance under V3_0, in every interleaving, if and only if it is not the case that the channel starts with exactly V3_0 while its spec asks for something else |
| `Migration.ConsensusChangesSafely` | scripts/migrate-channel-raft-bft.ts:299-357 | The safe direction over all interleavings of patches, polls, operator reconciles, aborts, publications and follower updates |
| `Migration.SafeDespiteTimeOutIffNoV3Yet` | scripts/migrate-channel-raft-bft.ts:146-178 | When the state waits may silently time out: safe in every interleaving if and only if neither channel nor spec has V3_0 at the start |
| `Migration.LaggingIsUnsafe` | scripts/migrate-channel-raft-bft.ts:325-357 | The unsafe run when capabilities are out of step: a lagging ConfigMap lets the script pass the capability wait |
| `Migration.SilentTimeOutIsUnsafe` | scripts/migrate-channel-raft-bft.ts:176-178 | The unsafe run after an ignored time-out |
| `Migration.CanCompleteIffNotFailed` | scripts/migrate-channel-raft-bft.ts:112-178 | From wherever a run has got to, through any time-outs, aborts and follower updates, the migration can still complete, with the planned mapping and options, if and only if the script has not failed, and then without further trouble |
| `Migration.SpecsAreVersions` | scripts/migrate-channel-raft-bft.ts:195-205 | In every run the script writes exactly these versions of the spec, one after the other: state, capabilities, type, mapping and options at their stage, and nothing else of it |
| `Migration.MigrationCompletes` | scripts/migrate-channel-raft-bft.ts:364-468 | Undisturbed, four rounds of one patch and one reconcile end in BFT with the planned mapping and options, normal state and V3_0 |
| `Migration.StepKeepsSteerable` | controllers/mainchannel/mainchannel_controller.go:599-704 | Every step, time-outs included, keeps what completion needs: spec versions as patched, organizations readable, BFT only once its spec was read |
| `Migration.BftReachableIffFiveOrderers` | controllers/mainchannel/mainchannel_controller.go:956-959 | Some run reaches BFT if and only if more than four orderers are mapped |
| `Migration.StepKeepsInv` | controllers/mainchannel/mainchannel_controller.go:683-704 | Every step but a time-out keeps the invariant tying spec versions, channel, ConfigMap and script stage together, and is itself safe |
| `Migration.RoundsAdvance` | scripts/migrate-channel-raft-bft.ts:180-249 | After each undisturbed round the channel, the ConfigMap and the script agree on the stage |
| `Migration.BuildConsenterMapping` | scripts/migrate-channel-raft-bft.ts:375-428 | One entry per orderer in order, numbered from one without repeats, both TLS certificates the orderer's; refused if and only if an identity or MSP id is missing |
| `LeaseProtocol.MutualExclusion` | controllers/utils/lease.go:14-70 | Over every interleaving of reads, decisions, stamps and compare-and-swap writes with a monotone clock, no two identities are both within stored renew time plus stored duration of a hold they have not released |
| `LeaseProtocol.ReleaseClearsOnlyOwnLease` | controllers/utils/lease.go:73-87 | A release changes the lease only if it still names the releasing identity, however old the read, and then changes only the holder |
| `LeaseProtocol.StoredTimesAdvance` | controllers/utils/lease.go:24-58 | The stored renew time never goes back and the acquire time never passes it |
| `LeaseProtocol.AttemptAlone` | controllers/utils/lease.go:38-70 | Undisturbed, an attempt fails if and only if the lease names another holder and renew time plus duration is not past; a live lease of its own is renewed as it is, any other is replaced by one for the duration asked for |
| `LeaseProtocol.StepKeepsInv` | controllers/utils/lease.go:14-87 | Each atomic step keeps the invariant: live holds are backed by the stored record, and of two holds the earlier had expired when the later was stored |
| `LeaseProtocol.OverlapOnlyAfterExpiry` | controllers/peer/peer_controller.go:480-521 | Two renewals overlap only if the one with the earlier stored lease had already outlived it when the other's was stored |
| `LeaseProtocol.HoldsLast` | controllers/utils/lease.go:43-59 | When every attempt asks for the same duration, every hold lasts that long, although renewing does not write it |
| `LeaseProtocol.ClockAdvances` | controllers/utils/lease.go:26-27 | Along a run the clock does not run backwards |
| `LeaseProtocol.RenewersKeepHold` | controllers/peer/peer_controller.go:489-512 | With one thread per identity, whoever is renewing still has its hold |
| `LeaseClient.Session.AcquireLease` | controllers/utils/lease.go:14-62 | The method as written, with other clients interfering before each access: it reads the lease once and a clock afterwards, answers "not acquired" without an error if and only if these show another, unexpired holder, and otherwise writes once; success is a winning write, and the stored record is then exactly the one read, one version on, with the stamps taken and the right duration |
| `LeaseClient.Session.ReleaseLease` | controllers/utils/lease.go:73-87 | The method as written: it reads the lease once and writes once if and only if it saw its own name; then the lease is cleared, or an error says that it may not be |
| `LeaseClient.OthersLeavePhase` | controllers/utils/lease.go:14-87 | However many steps other clients and the clock take, they leave a client where it is in its own call |
| `CertRenewal.RenewsOnceIffWholeSecond` | controllers/peer/peer_controller.go:442-449 | With auto-renewal off and outcomes recorded, a due request at most five minutes ahead of every renewal causes exactly one renewal in every serial run that can renew, if and only if it is for a whole second |
| `CertRenewal.RequestRenewsOnce` | controllers/ordnode/ordnode_controller.go:215-222 | The exact number of renewals such a whole-second request causes in any run: one if due and some reconcile can renew, otherwise none |
| `CertRenewal.FractionalRequestRenewsTwice` | controllers/peer/peer_controller.go:518-519 | The failing family: every request with a fraction of a second, made five minutes ahead, renews twice in two visits one after the other |
| `CertRenewal.RenewedRequestDueAgain` | controllers/peer/peer_controller.go:444-449 | After a recorded renewal the same request is due again if and only if it lies past the stored second |
| `CertRenewal.AutomaticRenewals` | controllers/ordnode/ordnode_controller.go:223-230 | Without requests the renewals of any run are exactly the able visits that found the certificate inside the delta, or none with automatic renewal off |
| `CertRenewal.OneMoreVisitRenewsIff` | controllers/peer/peer_controller.go:442-457 | In any run one visit more adds a renewal if and only if it is able and finds the certificate inside the delta of automatic renewal or a request past the recorded time |
| `CertRenewal.StatusAfter` | controllers/peer/peer_controller.go:500-557 | The status after a visit, field by field: the lease flag, the recorded time, the deployment state |
| `CertRenewal.LastUpdateAdvances` | controllers/ordnode/ordnode_controller.go:291-323 | The recorded renewal time never decreases in a serial run |
| `CertRenewal.ManualRenewalsAreApart` | controllers/peer/peer_controller.go:518-551 | A later manual renewal answers a request past the second stored five minutes ahead of the earlier finish; for a whole-second request that is more than five minutes past the finish |
| `CertRenewal.RenewalsOverlapOnlyPastLease` | controllers/ordnode/ordnode_controller.go:253-294 | Two resources of a kind in one namespace, locking under their own names, both renew only if the earlier one has outlived its 120 seconds |
| `CertRenewal.IdentitiesDistinct` | controllers/peer/peer_controller.go:483-486 | Without `POD_NAME`, distinct resources lock under distinct identities |
| `CertRenewal.HolderIdentity` | controllers/ordnode/ordnode_controller.go:257-260 | `POD_NAME` when set, else never empty |
| `CertRenewal.ResourceReconciler.Reconcile` | controllers/peer/peer_controller.go:442-551 | The renewal logic on status, lease and stored material: it tries for the lease if and only if the certificate expires inside the delta with automatic renewal on, or the request lies past the recorded time, and gives up after five tries; the lease counts as taken exactly when this reconcile made a winning write; clock readings are in order; a lease still held by a running resource is asked for release once; material is renewed if due and locked, upgraded if not due, else untouched; no visit if and only if the TLS pair is not found |
| `CertRenewal.ResourceReconciler.Serve` | controllers/peer/peer_controller.go:1771-1779 | Reconciles of one resource, one at a time, are a serial run of the run theorems, so the recorded time does not go back |
| `CertRenewal.ResourceReconciler.RenewLocked` | controllers/peer/peer_controller.go:480-521 | Material is replaced only after winning the lease in the same call |
| `CertRenewal.ResourceReconciler.AcquireWithin` | controllers/peer/peer_controller.go:489-499 | The bounded acquire loop: success means a winning write and leaves the caller holding, failure means none after as many reads as there are tries |
| `CertRenewal.ResourceReconciler.UpdateCerts` | controllers/peer/peer_controller.go:657-670 | Callable only by a client inside an acquire; the stored material after it and when it succeeds |
| `PeerCrypto.Peer.UpdateCerts` | controllers/peer/peer_controller.go:657-670 | All or nothing: success puts a pair newly signed for its new or its kept key in every place that is not external, failure leaves all three pairs as stored |
| `PeerCrypto.RenewedAreJustSigned` | controllers/peer/peer_controller.go:1219-1406 | Each pair of a renewal that goes through answers this renewal: the enrolment of its new key or the re-enrolment of the key held |
| `PeerCrypto.RunKeepsPairsMatched` | controllers/peer/peer_controller.go:1206-1406 | Certificate and key stay a matched pair over any run of installs, upgrades and renewals with changing specs |
| `PeerCrypto.RunKeepsKeyIff` | controllers/peer/peer_controller.go:1219-1406 | A stored key survives a run if and only if no step of it that goes through enrols: a renewal with the pair expired, re-enrolment off, credentials refused, or of the operations pair; or an upgrade outside a renewal that fails to read the pair |
| `PeerCrypto.PlainUpgradeKeepsIff` | controllers/peer/peer_controller.go:1278-1311 | Outside a renewal a stored pair is kept if and only if it is read, or the step does not go through |
| `PeerCrypto.FailedReadReplacesKey` | controllers/peer/peer_controller.go:1280-1290 | The failing case: one failed read in an otherwise healthy upgrade replaces that stored key, and only that one |
| `PeerCrypto.WorkingCaRenewsIff` | controllers/peer/peer_controller.go:1330-1392 | With a CA that answers, a renewal goes through if and only if the TLS and signing pairs are read |
| `PeerCrypto.CompletesIff` | controllers/peer/peer_controller.go:1206-1406 | With nothing external a step goes through if and only if chart and CA do their part for all three pairs, pair by pair in terms of reads, expiry, re-enrolment and the CA's answers |
| `PeerCrypto.ExternalTaken` | controllers/peer/peer_controller.go:1205-1218 | A pair the spec takes from elsewhere is what that secret holds, and stops the step when it cannot be read |
| `PeerCrypto.EnrollUser` | controllers/certs/provision_certs.go:316-361 | Enrolling certifies a newly made key |
| `PeerCrypto.ReenrollUser` | controllers/certs/provision_certs.go:222-292 | Re-enrolling certifies the key already held |
| `PeerCrypto.Peer.GetConfig` | controllers/peer/peer_controller.go:1183-1406 | The branches as written, in order, with reads that may fail and early returns: values exist if and only if all three pairs could be had, and are those |
| `PeerCrypto.Peer.PlainUpgrade` | controllers/peer/peer_controller.go:523-536 | An upgrade outside a renewal; with an earlier one pending, values are computed and not applied |
| `Conditions.TransitionTimeIsRunStart` | pkg/status/conditions.go:119-165 | In every history of set and remove calls, the transition time of a kind is that of the call that opened its latest unbroken run of same-status sets, and the kind is present if and only if there is such a call |
| `Conditions.HistoryRefinesMap` | pkg/status/conditions.go:119-165 | Any history from a list with unique kinds keeps them unique and acts as on a map keyed by kind |
| `Conditions.EveryListIsAHistory` | pkg/status/conditions.go:72-78 | Every list with unique kinds is reached by a history from empty |
| `Conditions.SetKeepsPlaces` | pkg/status/conditions.go:122-134 | A set keeps every other condition as it is and all in their places, and appends a new kind |
| `Conditions.RemoveKeepsPlaces` | pkg/status/conditions.go:158-163 | A remove takes out the first condition of the kind and nothing else |
| `Conditions.LatestCallDecides` | pkg/status/conditions.go:119-165 | A kind is present exactly when the last call about it set it, with that call's content |
| `Conditions.MarshallingIsCanonical` | pkg/status/conditions.go:169-175 | Lists that denote the same map serialize to the same sequence, whatever calls built them |
| `Conditions.PermutationKeepsView` | pkg/status/conditions.go:169-175 | Sorting in place keeps the map |
| `Conditions.ConditionList.SetCondition` | pkg/status/conditions.go:119-136 | New list as specified; true if and only if the kind is new or status, reason or message changed |
| `Conditions.ConditionList.RemoveCondition` | pkg/status/conditions.go:154-165 | New list as specified; true if and only if the kind was there |
| `Conditions.ConditionList.MarshalJson` | pkg/status/conditions.go:169-175 | The receiver's own list ends sorted by kind, a permutation with the same map |
| `Conditions.NewConditions` | pkg/status/conditions.go:72-78 | The list of a history of sets; kinds unique even if the arguments' are not |
| `Conditions.GetCondition` | pkg/status/conditions.go:141-148 | The map lookup |
| `Conditions.IsTrueFor` | pkg/status/conditions.go:83-90 | True if and only if present with status True |
| `Conditions.IsFalseFor` | pkg/status/conditions.go:95-102 | True if and only if present with status False |
| `Conditions.IsUnknownFor` | pkg/status/conditions.go:107-114 | True if and only if absent or present with status Unknown |
| `NetworkConfig.EntryOrderFreeIff` | controllers/networkconfig/networkconfig_controller.go:429-453 | The entry of a listed organization is the same under all orders of the map if and only if it lists no running peer of another organization whose own list leaves that peer out |
| `NetworkConfig.PoolOrderFree` | controllers/networkconfig/networkconfig_controller.go:429-453 | The peers that remain are the same under all orders, always |
| `NetworkConfig.EntryUnderIs` | controllers/networkconfig/networkconfig_controller.go:434-451 | Exactly which peers an entry holds under a given order |
| `NetworkConfig.ApplyLists` | controllers/networkconfig/networkconfig_controller.go:429-453 | For every order of the map: each listed organization gets the entry of that order; the remaining peers are, once any list is non-empty, the running ones that are listed or whose organization has no list; when lists name own peers each entry is its share of those; no result if and only if a listed organization is unknown |
| `NetworkConfig.ForeignListingDependsOnOrder` | controllers/networkconfig/networkconfig_controller.go:434-451 | A witness that entries can depend on the order |
| `NetworkConfig.FilterPeers` | controllers/networkconfig/networkconfig_controller.go:419-428 | The admitted peers as the next row describes them |
| `NetworkConfig.AdmittedPeersInOrder` | controllers/networkconfig/networkconfig_controller.go:419-428 | Admitted are the peers that pass the namespace and organization filters, each as often as listed and in cluster order; the replica count matters only under an organization filter |
| `NetworkConfig.GroupOrderers` | controllers/networkconfig/networkconfig_controller.go:360-378 | Every organization ends with its admitted orderers in cluster order after those it had; organizations are created only for them |
| `NetworkConfig.OrderersInOrder` | controllers/networkconfig/networkconfig_controller.go:360-366 | Those orderers are the ones that pass both filters and belong to the organization, in cluster order |
| `CertificateAuthority.DoesCertNeedToBeRenewed` | controllers/ca/ca_controller.go:579-608 | True if and only if the certificate's DNS names and the spec's differ as multisets; IP addresses never matter |
| `CertificateAuthority.HostsPartitioned` | controllers/ca/ca_controller.go:174-193 | Hosts split into DNS names and IPs with nothing lost or repeated |
| `CertificateAuthority.HostsSorted` | controllers/ca/ca_controller.go:174-193 | Which hosts go to which side |
| `CertificateAuthority.DnsNamesInOrder` | controllers/ca/ca_controller.go:174-183 | DNS names are the hosts that do not read as an IP, in their order |
| `CertificateAuthority.IpHostsInOrder` | controllers/ca/ca_controller.go:184-193 | IP hosts are those that do, in their order |
| `CertificateAuthority.CreateTlsCert` | controllers/ca/ca_controller.go:297-354 | A new certificate names the DNS names and the loopback and host addresses in order, and fails if and only if the store is unknown or signing fails |
| `CertificateAuthority.GetIpAddresses` | controllers/ca/ca_controller.go:184-193 | The loopback address first, then one address per IP host, in order |
| `CertificateAuthority.SortedEqualIffSameNames` | controllers/ca/ca_controller.go:584-603 | Sorted name lists are equal exactly when the names are equal as multisets |
| `CertificateAuthority.TlsForConfig` | controllers/ca/ca_controller.go:609-625 | What is used is never in need of renewal, a good certificate that is read is kept, and it fails if and only if one must be made and cannot be |
| `CertificateAuthority.RenewalSettles` | controllers/ca/ca_controller.go:609-625 | The next reconcile keeps what this one settled on, even where it could make nothing, if and only if it reads what is stored; either way the certificate names the hosts |
| `Ordering.SortedUnique` | pkg/status/conditions.go:171-173 | Two sorted arrangements of the same elements agree when the key decides the element |
| `Ordering.StringLeqIff` | pkg/status/conditions.go:171-173 | The string order outright: a prefix, or smaller at the first difference |
| `Attributes.AttributesRoundTrip` | kubectl-hlf/cmd/ca/register.go:62-75 | Printing distinct delimiter-free registration attributes (values may hold `=`), parsing and converting gives the same attributes back for every order of the map |
| `Attributes.ConvertAttrs` | kubectl-hlf/cmd/ca/register.go:125-152 | One attribute per entry in an arbitrary order; refused if and only if some value has two colons or an unknown flag |
| `Attributes.ConvertibleIff` | kubectl-hlf/cmd/ca/register.go:129-145 | A value converts if and only if it has no colon, or one followed by nothing or by "ecert" in any letter case |
| `Attributes.ConvertedIs` | kubectl-hlf/cmd/ca/register.go:141-149 | What such a value converts to |
| `Attributes.LowerIff` | kubectl-hlf/cmd/ca/register.go:137-140 | A flag is compared without regard to letter case, and exactly so |
| `Attributes.EntriesLookup` | kubectl-hlf/cmd/ca/register.go:67-74 | A name has the value of its last occurrence, which starts after the first `=` |
| `Attributes.EntriesOccur` | kubectl-hlf/cmd/ca/register.go:67-74 | Only names that occur are in the map |
| `Attributes.ParseAttributes` | kubectl-hlf/cmd/ca/register.go:62-75 | The map the lookup and printing lemmas are about, error included |
| `Attributes.EntriesRefused` | kubectl-hlf/cmd/ca/register.go:64-72 | Parsing is refused if and only if some non-empty item lacks `=` |
| `Attributes.RequestsRoundTripIff` | kubectl-hlf/cmd/ca/enroll.go:75-94 | Print-then-parse of delimiter-free enrolment requests is exact if and only if the list is not a single required request with an empty name |
| `Attributes.AcceptedIsPrinted` | kubectl-hlf/cmd/ca/enroll.go:75-94 | Every accepted string is the print of the requests it parses to |
| `Attributes.ReadRequests` | kubectl-hlf/cmd/ca/enroll.go:75-94 | The parsing loop returns what the two lemmas are about, error included |
| `Text.SplitJoin` | kubectl-hlf/cmd/ca/enroll.go:76-78 | Joining then splitting is the identity on separator-free pieces |
| `Text.JoinSplit` | kubectl-hlf/cmd/ca/enroll.go:76-78 | Splitting then joining is the identity on every string |

## Left out

- `fabric-config` and `fabric-sdk-go`: each call is a method that adds if absent, removes if present, or sets; setting the orderer configuration changes consensus type, metadata, state and batching, and not organizations, policies or capabilities. Envelopes, signatures and protobuf encoding are not part of this model.
- MainChannel.UpdateConsensus: a BFT-to-raft downgrade is one error value; the code would edit consenters the BFT metadata does not have.
- MainChannel.UpdateChannelConfig: nobody else submits in the middle of the call, and an accepted submission commits at once; competing submissions are in `Interference`, a late publication is in `Migration`.
- Convergence.ThirdSubmitsNothing: wanted raft consenters have distinct addresses; with repeated addresses the first match and the additions disagree.
- Interference.FollowerUpdateSurvives: an organization removed from the main spec and added back loses what its follower wrote, as it does in the code.
- Migration.SafeIffCapabilitiesInStep: all stages are confirmed and `channelConfig.orderer` exists; declined stages, image upgrades and restarts of orderers and peers are not steps.
- Migration.CanCompleteIffNotFailed: says that completion stays possible, not that every fair run completes; the script's waits are bounded and the operator's reaction is not.
- JointConvergence.AcceptancesBounded: main and follower specs do not change during the run, and no two followers serve one organization; two that disagree overwrite each other for ever, as in the code.
- LeaseProtocol.MutualExclusion: between identities. Threads that share `POD_NAME` share an identity, and the code does not exclude them from each other; nor are deletions of the lease object by others or clocks that disagree between pods modelled.
- CertRenewal.RenewalsOverlapOnlyPastLease: within a namespace, as the lease object lives in the resource's own; resources of different namespaces do renew together.
- CertRenewal.ResourceReconciler.Reconcile: one model for peers and orderer nodes, with a peer's material. Peers set a failed status when their state cannot be read, orderer nodes return before; the spec read for the second time is taken to agree with the first; failed writes of the lease flag are taken to succeed.
- CertRenewal.RequestRenewsOnce: status writes succeed after a renewal; when one is lost the renewal may repeat, as in the code.
- PeerCrypto.Peer.UpdateCerts: a chart upgrade stores all of its secrets or none. The Vault store is not modelled: its re-enrolment issues a certificate for another key.
- PeerCrypto.RunKeepsKeyIff: keys made by enrolment differ from the key the run started with. Root certificates travel with their pair and are left out; a failed read of a pair and of its root certificate are one case. The orderer node's admin TLS material follows the same branches.
- CertificateAuthority.TlsForConfig: certificate encoding keeps DNS names; whether a host is an IP address is a parameter; an absent and an empty list of names count as equal. The signing and TLS-signing material of the CA are not modelled.
- NetworkConfig.ApplyLists: peers as a set; the code repeats a peer that is listed twice. Certificate authorities, identities and the template are left out.
- Conditions.ConditionList.MarshalJson: the order of equal kinds is left open, as in Go's unstable sort; the JSON text is not modelled.
- Revocation lists and certificates are opaque texts that parse or do not.
- Chaincode approval and commit, finalizers and uninstalling, metrics, the remaining command line, charts and templates: lookups, data copying or calls into systems not shown.
