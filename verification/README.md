# A verified model of the AmneziaWG datapaths, the agent core and their supporting code

This project models the parts of the 3x-ui panel that keep state and promise something over whole
runs, and proves those promises with Dafny 4.11. `dafny verify dfyconfig.toml` checks all of it.

## What is modelled

**The kernel-interface manager** (`Amnezia`, `KernelConfig`, `KernelOwnership`, `KernelHost`,
`KernelSpec`, `KernelManager`, `KernelRuns`). The config printer and the recogniser that proves
ownership are modelled on characters. The host is a class with links, private configs, NAT tables,
the FORWARD chain and the forwarding switch. Every command may fail, with or without having done its
work, and the panel may die before any command; after that nothing it would still do reaches the
host, and the next process starts with an empty map. `Link.panel` and `made`, `Host.created`,
`staleSyncs`, `failedRebuilds`, `calls`, `errors`, `undeleted` and `egressFailures` are bookkeeping of
the proof. Other actors change the host only between operations. SHA-256 is taken as injective, key
derivation is a function that may fail, and reading the config directory may fail. `KernelReading`
reads printed configs back with a reader of its own (`Reading`), `KernelGrammar` gives the form of the
configs the recogniser accepts, and `KernelFilter` says what a packet meets in the installed rules.

**The embedded datapath** (`UdpRelay`, `PeerIndex`, `UapiConfig`, `UapiReading`, `EmbeddedManager`,
`V6Alias`, `PortForward`, `Socks5Udp`, `Params`). The UDP relay is a state machine whose goroutines
take one locked section or one call outside the lock at a time, in any order; the locked sections are
methods proved equal to the functions the state machine uses. The manager treats each operation as
one step; flows open and end in between. `Managed.device` and `told` record what a device was made
for and last configured with, and no code reads them. Key decoding, prefix parsing and the listen
normalisation are functions the manager is given, and the random source is a stream of draws.

**The agent's core supervisor** (`AgentCore`). `xray.Process`, the hot diff and the files are a
machine with nondeterministic outcomes; a core may die whenever it is looked at. `launches`, `hots`,
`tests`, `faults` and `died` record what happened and no code reads them. An empty hot diff is an
equivalence of configs, and the revision digest is injective where a lemma says so.

**Supporting code**: the event bus (`EventBus`), the traffic collector (`Collector`), the imported-host
diff (`ImportedHosts`) and the token bucket of the Uptime Kuma decoy (`TokenBucket`, over reals);
`Text` and `Sets` hold what all of them share.

## Where the code does less than it says

The code is modelled as it is, and each of these comes with its exact condition.

- A rebuild of a managed link that fails after the file was replaced leaves the old settings in the
  map. For the failure at the egress this is the `RebuildHalts` clause of `KernelManager.Manager.Ensure`.
  An in-place change of the listed settings then writes a config whose key the live link does not
  have, and a crash before `syncconf` makes the link unprovable, exactly when the keys differ
  (`KernelRuns.StaleEntryLosesLink`). Going back to the listed settings does nothing and reports
  success (`KernelRuns.RevertIsSilent`). In `KernelRuns.StaleEntry` two pushes end in that state
  whenever the second fails at its egress, and `KernelRuns.StaleEntryInputs` gives the settings. When
  exactly a successful call converges is the `WillConverge` clause of `KernelManager.Manager.Ensure`.
- Adoption compares addresses and MTU and not whether the link is up, so a link whose creation was
  cut off just before its last command is adopted down (the `up` clause of `KernelManager.Manager.Ensure`).
- A peer whose joined AllowedIPs are empty, as with one blank entry, prints a config that its own
  recogniser refuses (`KernelOwnership.RenderIsOwned`); an underivable private key leaves a keyless
  link that can never be verified (`KernelRuns.KeylessRecoverableIff`).
- `writeFileAtomic` can report an error after the rename. The agent then answers a save error although
  a reboot brings the new config back, and pushing the previous revision again skips its save and
  answers success; a success is stored exactly unless savedRev named the revision before the call while
  the disk was ahead of it (`AgentCore.Core.Apply`, example run `AgentCore.FalseSuccess`).
- An IPv6 alias that one email gives up and another wants is deleted after its add was refused
  (`V6Alias.AllPresentIff`, example `V6Alias.RenameLosesAlias`).
- When a rebuild of an embedded interface fails, its aliases stay on the host and owned. One is left
  without any interface that would remove it exactly when no other interface wants it
  (`EmbeddedManager.OrphanedIff` and the last clause of `EmbeddedManager.Manager.Ensure`, example
  `EmbeddedManager.FailedRebuildOrphans`); nothing else leads to that (`EmbeddedManager.Run`).
- An in-place change of an embedded interface that the device refuses, perhaps with part of it applied,
  leaves the listed settings as they were. Pushing those again finds nothing new and answers success
  while the device may have something else (`EmbeddedManager.RefusedThenReverted`). A device is known
  to have its interface's settings as long as no device call was refused (the `AllInStep` clauses of
  `EmbeddedManager.Manager.Ensure`).
- The cap of `ExpandForwardedPorts` keeps the first 100 ports in the order of the text and sorts them
  afterwards. They are the 100 lowest exactly when no port first named later is lower than one of them
  (`PortForward.KeepsLowestIff`, example `PortForward.LowestPortLost`).

## Model

| member | source | states |
|---|---|---|
| KernelConfig.Render | internal/amneziawgkern/config.go:113-142 | The printed config, line by line, or an error just when there is no private key or a printed value has a control character; what the lines say is read back by `KernelReading` |
| KernelReading.SettingsReadBack | internal/amneziawgkern/config.go:113-234 | For every instance `Render` accepts, a reader of its own finds under each key above the first peer the instance's own field: key, port, junk, the four paddings, the four types with their defaults, the five signatures, protection key, content padding, the five timers and the two switches; a blank optional one is not there |
| KernelReading.PeersReadBack | internal/amneziawgkern/config.go:126-141 | The peer blocks read back as the public key, preshared key and joined AllowedIPs of each peer that has a key and addresses, in order |
| KernelConfig.SectionIsHead | internal/amneziawgkern/manager.go:501-506 | What `interfaceSection` cuts off a printed config is exactly its head |
| KernelConfig.SectionIgnoresPeers | internal/amneziawgkern/manager.go:499-506 | Two instances that differ only in peers have the same interface section |
| KernelConfig.StructuralTextInjective | internal/amneziawgkern/config.go:325-334 | Equal structural fingerprints mean equal interface section, addresses and MTU |
| KernelOwnership.NameRoundTrip | internal/amneziawgkern/ownership.go:16-25 | `parseOwnedInterfaceName` accepts a name just when it is the printed name of an id above zero, and returns that id |
| KernelOwnership.NameInjective | internal/amneziawgkern/config.go:41-43 | No two inbounds share an interface name |
| KernelOwnership.ValidOwnedConfig | internal/amneziawgkern/ownership.go:106-144 | The recogniser's loop computes `IsOwnedConfig`: marker line, one interface section, only allowed keys, no stray bytes |
| KernelGrammar.OwnedIff | internal/amneziawgkern/ownership.go:106-144 | The recogniser accepts exactly the texts without carriage return or zero byte that are the marker line, blank lines, one interface header, then only blank lines and non-empty settings of interface keys, and from the first peer header on only blank lines, comments, peer headers and non-empty settings of peer keys |
| KernelGrammar.AllowedIsPrinted | internal/amneziawgkern/ownership.go:93-104 | Every allowed interface key is one Render prints: the config of an instance with all settings has it |
| KernelGrammar.PeerKeyIsPrinted | internal/amneziawgkern/ownership.go:104-104 | Every allowed peer key is one Render prints |
| KernelOwnership.ConfigInterfacePublicKey | internal/amneziawgkern/ownership.go:75-91 | The public key of a config's one private key, or nothing when there is none or more than one |
| KernelOwnership.KeyIsInSection | internal/amneziawgkern/ownership.go:75-91 | In an owned config the private key is found above the first peer |
| KernelOwnership.SameSectionSameKey | internal/amneziawgkern/manager.go:124-131 | Two owned configs with the same interface section name the same private key, which is why adoption may replace peers |
| KernelOwnership.RenderIsOwned | internal/amneziawgkern/ownership.go:106-144 | For every instance `Render` accepts, the output is recognised as owned if and only if every printed peer's joined AllowedIPs are not empty |
| KernelOwnership.RenderNamesKey | internal/amneziawgkern/ownership.go:75-91 | The output of `Render` names exactly the instance's private key |
| KernelHost.RemoveTagged | internal/amneziawgkern/manager.go:281-290 | Deleting the first rule written like a tagged one leaves every untagged rule and the other tagged ones in order |
| KernelHost.OtherTagKept | internal/amneziawgkern/manager.go:263-292 | Dropping one interface's rules keeps another's unless a rule carries both comments |
| KernelHost.NoneTaggedStays | internal/amneziawgkern/manager.go:251-292 | An interface without FORWARD rules gets none from work on another |
| KernelHost.UnownedKept | internal/amneziawgkern/manager.go:251-314 | Work on one interface keeps every FORWARD rule without a comment of the panel, in its order |
| KernelHost.SafeButHere | internal/amneziawgkern/manager.go:91-165 | Work on one interface can cost crash safety only there, and not even there if its link stays provable |
| KernelHost.Host.WriteConf | internal/amneziawgkern/manager.go:510-539 | The config is replaced atomically or not at all |
| KernelHost.Host.ApplyConf | internal/amneziawgkern/manager.go:174-196 | `setconf` and `syncconf` may fail after having set the key and part of the peers; a success leaves link and file equal |
| KernelHost.Host.LinkDel | internal/amneziawgkern/manager.go:220-229 | A link deletion may fail with or without effect and touches one link only |
| KernelSpec.BuildSpec | internal/amneziawgkern/config.go:69-104 | Check by check as the source does it, the result is the declared spec, and it is an error exactly when the id, the name, the listen address, the instance, its addresses or, without Xray, the egress interface is unusable |
| KernelFilter.SpecFilters | internal/amneziawgkern/config.go:89-104 | Without Xray the spec's NAT chain hides the subnets of all its addresses behind the egress, and its FORWARD rules let the tunnel's own traffic and the answers to it through; with Xray there is neither |
| KernelFilter.TunnelTrafficPasses | internal/amneziawgkern/manager.go:251-261 | With the two rules above all others a packet from tunnel to egress, or an established one back, is accepted, and every other packet is left to the rules of others |
| KernelFilter.NatReadsBack | internal/amneziawgkern/config.go:304-312 | A reader of NAT chains finds the source NAT hook and exactly one masquerade for each address's subnet, out of the egress |
| KernelFilter.MaskedIsSubnet | internal/amneziawgkern/config.go:304-312 | The masked prefix contains the same addresses as the prefix and has no host bit set |
| KernelFilter.SpecAddresses | internal/amneziawgkern/config.go:238-257 | The addresses a link is to get read back as the inbound's own, octet by octet and in order |
| KernelFilter.NameValidIff | internal/amneziawgkern/config.go:41-43 | The interface name fits the kernel's fifteen characters exactly for ids below 100000000 |
| KernelSpec.ListensEverywhere | internal/amneziawgkern/config.go:179-186 | The listen addresses a kernel link can serve are, white space aside, the blank one and the three wildcards |
| KernelSpec.SpecIsWellFormed | internal/amneziawgkern/config.go:69-104 | Every built spec has addresses, their canonical text, its own fingerprint and FORWARD rules of its own interface |
| KernelSpec.SoundSpec | internal/amneziawgkern/ownership.go:52-91 | A spec's config can be recognised and its key derived again if and only if the private key is derivable and every printed peer names an address |
| KernelSpec.TagsKeptApart | internal/amneziawgkern/manager.go:263-314 | Replacing one interface's FORWARD rules keeps every other managed interface's rules exactly |
| KernelSpec.OthersStayAccurate | internal/amneziawgkern/manager.go:91-165 | An operation on one interface leaves every other managed interface as its spec wants it |
| KernelSpec.AccurateConverges | internal/amneziawgkern/manager.go:91-165 | An accurate managed entry, or none, is enough for convergence |
| KernelSpec.AccurateAfter | internal/amneziawgkern/manager.go:91-165 | A successful Ensure from an accurate state ends in one, for every managed interface |
| KernelSpec.Reconciled | internal/amneziawgkern/manager.go:335-377 | The two halves of a Reconcile add up to what the whole promises |
| KernelSpec.FreshCannotTrap | internal/amneziawgkern/manager.go:113-123 | While managed entries describe their links, no in-place sync writes a key the live link does not have |
| KernelSpec.SameKeyFits | internal/amneziawgkern/manager.go:113-123 | An unchanged fingerprint means an unchanged key |
| KernelSpec.GoneMeansNoPanelLink | internal/amneziawgkern/manager.go:335-377 | After a clean Reconcile no link the panel made is left at an undesired id |
| KernelSpec.RemovedStays | internal/amneziawgkern/manager.go:335-377 | Whatever is done to other interfaces afterwards, a removed one stays without link, config, NAT table and FORWARD rules |
| KernelSpec.KeptTwice | internal/amneziawgkern/manager.go:335-397 | What two operations keep, their sequence keeps: crash safety and steadiness of each id, accuracy, foreign links, and the order of FORWARD rules without a panel comment |
| KernelSpec.ForeignKeptTwice | internal/amneziawgkern/manager.go:316-331 | A live link that was not provably the panel's is still one, and untouched, after two operations that each leave such links alone |
| KernelSpec.TwoRounds | internal/amneziawgkern/manager.go:339-371 | Tearing down the managed and then the recovered ids removes every undesired interface the panel knows of, with all that served it, and leaves no other it could prove |
| KernelManager.Manager.RemoveForwardRules | internal/amneziawgkern/manager.go:263-292 | Every rule with this interface's comment goes and no other rule changes, whatever commands fail |
| KernelManager.Manager.SyncForwardRules | internal/amneziawgkern/manager.go:251-261 | Without failures the chain is the inbound's two accepts above all rules of others |
| KernelManager.Manager.ApplyEgress | internal/amneziawgkern/manager.go:231-247 | NAT and FORWARD converge without failures, and after any success with an egress the host forwards IPv4, and without an egress that is left alone; the call succeeds just when no command it needs fails; links and configs are never touched |
| KernelManager.Manager.Reconfigure | internal/amneziawgkern/manager.go:172-184 | In-place change: crash safe when the live key fits the new config; the link is not made anew; after a success without failures the host has converged if and only if all that the entry calls unchanged was right already; nothing at all when nothing changed |
| KernelManager.Manager.Adopt | internal/amneziawgkern/manager.go:186-196 | Adoption brings config, NAT and FORWARD to the spec, does not make the link anew and keeps it up or down as it was |
| KernelManager.Manager.CreateLink | internal/amneziawgkern/manager.go:198-218 | A link built from nothing is at every failure point keyless or has the key of the config on disk, and a completed one is up with exactly the wanted addresses and MTU |
| KernelManager.Manager.DeleteLink | internal/amneziawgkern/manager.go:220-229 | Success means that the link is gone, whatever the command answered |
| KernelManager.Manager.VerifyLiveInterface | internal/amneziawgkern/manager.go:316-331 | Accepts only a link without a key or with the key of the owned config, and without failures any such link |
| KernelManager.Manager.BuildLink | internal/amneziawgkern/manager.go:144-151 | A completed build changes exactly the link and the config; the cleanup after a failure removes only a link this operation added, and leaves it only if its deletion fails; the build succeeds just when no command fails |
| KernelManager.Manager.Rebuild | internal/amneziawgkern/manager.go:135-160 | A replaced link is crash safe at every failure point; without failures it is up, and the host has converged if and only if FORWARD rules taken to be unchanged were right already; when only the egress fails, the new link and config stay |
| KernelManager.Manager.EnsureSpec | internal/amneziawgkern/manager.go:91-165 | An unmanaged link that is not provably the panel's is neither synced nor deleted; crash safety is kept unless an in-place sync falls into the stale-entry trap; a managed link whose fingerprint is unchanged, and an adopted one, is not deleted and made again; without failures the call succeeds if and only if the ownership checks do |
| KernelManager.Manager.Ensure | internal/amneziawgkern/manager.go:85-165 | The same for an inbound, plus: after a success without failures link, file, NAT and FORWARD are as the spec says if and only if what the branch took on trust from the managed entry was right (`WillConverge`), and the link is up unless a kept one was down; after any success the host forwards IPv4 if the spec has an egress, and a command it needs can have failed only in an adoption that gave way to a rebuild; asking again for the managed spec changes nothing; sessions survive where the link may stay (`SessionsKept`); a rebuild whose egress fails leaves the new link under the old entry (`RebuildHalts`) |
| KernelManager.Manager.Teardown | internal/amneziawgkern/manager.go:462-497 | Removes link, NAT, FORWARD accepts and config of one interface only, and a link only when it is managed or proved; a success means that the link is gone and nothing it needs failed; without failures it succeeds if and only if the id is removable and `Removed` says what is left |
| KernelManager.Manager.Remove | internal/amneziawgkern/manager.go:380-384 | Without failures the interface is gone with its NAT table, FORWARD rules and config if it is removable, and untouched and still managed if not; crash safety, fresh entries and accuracy of all others are kept |
| KernelManager.Manager.StopAll | internal/amneziawgkern/manager.go:388-397 | Only managed ids are touched, so links, configs, tables and rules of all others stay; without failures every removable managed id leaves the map and the host with all that served it, and exactly the others stay managed |
| KernelManager.Manager.Reconcile | internal/amneziawgkern/manager.go:335-377 | Only undesired ids the panel knows of and desired ones are touched, and foreign links not at all; without failures every undesired id the panel manages or has a config for is removed with NAT and FORWARD rules, no undesired link can be proved the panel's, and from an accurate state every wanted inbound that met no foreign link or config converges, sound or not, with IPv4 forwarding on where it has an egress; a wanted link whose fingerprint is unchanged is never made anew, and repeating the managed specs changes nothing |
| KernelRuns.Step | internal/amneziawgkern/manager.go:85-397 | Every operation, restart and outside change keeps each panel link provable except at ids of unsound inbounds and of stale syncs, keeps each id steady whose own rebuild did not fail, keeps accuracy unless others interfere, and leaves every foreign link and every FORWARD rule without a panel comment as they are |
| KernelRuns.Run | internal/amneziawgkern/manager.go:85-397 | The same over any sequence of operations with failures anywhere and a crash before any host command |
| KernelRuns.Life | internal/amneziawgkern/manager.go:80-397 | From any host, any inbounds and any failures and crashes: a panel link that could be proved the panel's still can, except at ids of inbounds with blank addresses or an underivable key and at those where a stale sync happened; no stale sync happens at an id whose own rebuild did not fail; if no command failed and nobody else interfered every managed interface is accurate, whatever the inbounds, and the host forwards IPv4 if any of them has an egress; every link that was not provably the panel's at the start is untouched and unmanaged |
| KernelRuns.WrittenIsSafeIff | internal/amneziawgkern/manager.go:174-184 | A crash between writing the file and `syncconf` is survivable if and only if the live key is the new config's |
| KernelRuns.StaleEntryLosesLink | internal/amneziawgkern/manager.go:113-160 | Once a rebuild for b's settings has halted at the egress, an in-place change of the listed settings is the trap, and a crash in it loses the link, if and only if the keys differ |
| KernelRuns.RevertIsSilent | internal/amneziawgkern/manager.go:113-160 | Pushing the listed settings again after such a rebuild does nothing and reports success, and the host is as they want it only if config and MTU are the same |
| KernelRuns.StaleEntry | internal/amneziawgkern/manager.go:91-184 | Two pushes through the code: without failures both succeed and the host ends as the second wants it; whenever the first succeeds and the second, for another key, fails at its egress, the host is in the state both lemmas speak of, with every inbound sound and the link crash safe |
| KernelRuns.StaleEntryInputs | internal/amneziawgkern/config.go:69-142 | Real settings meet all that StaleEntry asks for: one inbound, two keys, one new peer |
| KernelRuns.KeylessRecoverableIff | internal/amneziawgkern/manager.go:144-151 | A link just added is recoverable after a crash if and only if the inbound is sound |
| KernelRuns.OutsideKeeps | internal/amneziawgkern/manager.go:316-331 | Others may do anything to their own links and to packet filters without costing crash safety |
| UdpRelay.PeerSlots.Acquire | internal/amneziawgnet/forwarder.go:31-39 | Takes a slot just when the peer holds fewer than the limit |
| UdpRelay.PeerSlots.Release | internal/amneziawgnet/forwarder.go:41-47 | Gives one slot back and forgets a peer that holds none |
| UdpRelay.ReleaseUndoesAcquire | internal/amneziawgnet/forwarder.go:31-47 | A release undoes an acquire, map entry included |
| UdpRelay.UDPRelay.Publish | internal/amneziawgnet/relay.go:421-435 | Publishes a fresh session only when the source has none, and otherwise returns the one there is |
| UdpRelay.UDPRelay.Retire | internal/amneziawgnet/relay.go:447-454 | A pump removes its own entry and no other |
| UdpRelay.UDPRelay.CloseSessions | internal/amneziawgnet/relay.go:470-481 | Closes and drops exactly the sessions whose source address matches |
| UdpRelay.UDPRelay.Close | internal/amneziawgnet/relay.go:485-492 | Closes every session and empties the map |
| UdpRelay.MoveKeepsSlots | internal/amneziawgnet/relay.go:405-468 | Every section of every goroutine keeps each peer's count equal to its slot holders and within the limit |
| UdpRelay.PublishKeepsSlots | internal/amneziawgnet/relay.go:430-439 | The slot passes from the Handle call to the pump it starts |
| UdpRelay.MoveKeepsMapped | internal/amneziawgnet/relay.go:405-468 | Every section keeps each mapped session open and pumped by its owner |
| UdpRelay.RunKeeps | internal/amneziawgnet/relay.go:405-492 | The whole invariant over every interleaving of any number of Handle calls, pumps and closings |
| UdpRelay.ReachesNext | internal/amneziawgnet/relay.go:405-492 | Every step can be taken in every reachable state, and leads to one |
| UdpRelay.SlotsAreHolders | internal/amneziawgnet/forwarder.go:20-47 | In every reachable state a peer's count is the number of goroutines holding a slot for it, at most the limit, and absent just when there are none |
| UdpRelay.OnePump | internal/amneziawgnet/relay.go:422-439 | Every mapped session is open and has exactly one live pump |
| UdpRelay.SessionsDistinct | internal/amneziawgnet/relay.go:391-393 | Two sources never share a session |
| UdpRelay.OpenHasOwner | internal/amneziawgnet/relay.go:412-459 | In every reachable state an association that is not closed has exactly one goroutine that answers for it |
| UdpRelay.ClosesOwn | internal/amneziawgnet/relay.go:425-459 | A call whose association lost the race, and a pump at its end, close it and give its slot back |
| UdpRelay.AdmittedIff | internal/amneziawgnet/relay.go:412-415 | A call without a session is turned away just when its peer has as many slot holders as the limit |
| UdpRelay.ArrivalFindsSession | internal/amneziawgnet/relay.go:405-411 | A call for a source with a session goes on with it, and any other is yet to be admitted |
| UdpRelay.PublishedIsTarget | internal/amneziawgnet/relay.go:421-439 | After publishing the source has a session with a pump and the datagram goes there; the call's own association is that one or stays its own to close |
| UdpRelay.TargetKept | internal/amneziawgnet/relay.go:405-443 | Whatever others do, a call sends its datagram to the session it decided on |
| UdpRelay.ClosingIsExact | internal/amneziawgnet/relay.go:470-481 | A closing by address takes out and closes exactly the sessions of these addresses |
| UdpRelay.EvictsOnlyItsOwn | internal/amneziawgnet/relay.go:447-454 | A goroutine takes a session out of the map only as that session's own pump |
| UdpRelay.Quiescent | internal/amneziawgnet/relay.go:405-468 | When no call is under way and every pump has gone, no slot and no session is left and every association ever made is closed |
| AgentCore.Machine.SaveLastGood | internal/agent/state.go:89-95 | Atomic replace that may report an error after the new file is in place; every failure is recorded with its kind |
| AgentCore.Machine.StartCore | internal/agent/core.go:301-319 | A new process that serves, or none; one that did not get ready is stopped again |
| AgentCore.Core.Start | internal/agent/core.go:301-319 | One core is launched; it becomes the recorded one just when it serves, and then the backoff is reset |
| AgentCore.Core.StopProcess | internal/agent/core.go:287-297 | Forgets the recorded process; only one that would not stop is left running |
| AgentCore.Core.SwitchTo | internal/agent/core.go:251-269 | Where the core has not ended by itself an empty diff answers a no-op and touches nothing, and the core is replaced only for a diff that would drop users against the policy or after a hot apply that failed; only a restart launches cores; a failure leaves the current config and means that a core did not get ready |
| AgentCore.Core.Replace | internal/agent/core.go:272-285 | Restart with rollback: next is launched, and when it does not start and prev is another revision prev is launched again; success makes next current, and failure keeps the previous one |
| AgentCore.Core.Persist | internal/agent/core.go:367-381 | Success means that savedRev is the revision, and that a reboot brings it back, unless savedRev named it already while the disk held a config whose save had been reported as failed |
| AgentCore.Core.Boot | internal/agent/core.go:104-136 | Unless a push got in first, a stored config that can be built is taken up if its log folder can be made, and runs unless its core does not get ready, which are the only failures; nothing stored is a success without effect, and any other disk an error |
| AgentCore.Reboot | internal/agent/core.go:104-136 | An agent started anew on a disk with such a config runs exactly that config when nothing goes wrong, with one launch |
| AgentCore.PushThenReboot | internal/agent/core.go:104-180 | A push that succeeded is what an agent started anew runs when nothing goes wrong, unless its save was skipped over a half-failed one |
| AgentCore.Core.Apply | internal/agent/core.go:140-180 | Succeeds where the body can be prepared and nothing goes wrong; a push of the current revision to a core that has not ended by itself launches nothing, and of an empty diff neither; an error other than a save error changes neither current, savedRev nor the disk; otherwise a core runs the pushed revision, and after a success a reboot brings it back unless its save was skipped over a half-failed one; cores are launched only as Replace does; nothing is done with a config before the core itself has accepted it, and one it refuses leaves the running core alone |
| AgentCore.FalseSuccess | internal/agent/core.go:140-180 | Three pushes of preparable configs r1, r2, r1: when nothing goes wrong r1 runs and is stored; whenever the one thing that goes wrong is the save of r2, after its rename, r1 runs, a reboot brings back r2, and no push after that save reports a failure |
| AgentCore.Core.Restart | internal/agent/core.go:396-414 | Launches the current config once, and succeeds just when it serves; no other fact changes |
| AgentCore.Core.Supervise | internal/agent/core.go:431-451 | Tries if and only if it is open, has a config, has no live core and the wait is over; a try is one launch of the current config, and the n-th failure in a row sets the n-th wait |
| AgentCore.Core.Close | internal/agent/core.go:454-461 | No core is recorded after Close |
| AgentCore.WaitDoubles | internal/agent/core.go:444-446 | Doubling with floor and cap follows the closed form of the waits |
| AgentCore.WaitCapped | internal/agent/core.go:444-446 | The waits are 1, 2, 4, 8, 16 and 32 seconds and then a minute for good |
| AgentCore.Live | internal/agent/core.go:104-461 | Over every run: a recorded process runs and serves the current config, one core at most besides those that would not stop, only served configs are stored, no config is ever launched that the core had not accepted or an earlier life had not stored, and savedRev names what is stored until a save fails after its rename |
| AgentCore.KeepFailing | internal/agent/core.go:431-451 | A core that keeps failing is tried at exactly the due ticks until it starts |
| AgentCore.DueAfter | internal/agent/core.go:431-451 | After a failed try the next is due exactly the n-th wait after its end |
| AgentCore.StoredExactly | internal/agent/state.go:66-95 | What is stored under a revision is exactly that body and policy |
| PeerIndex.NewPeerIndex | internal/amneziawgnet/identity.go:29-41 | The index lists every parseable prefix of every peer in order |
| PeerIndex.Lookup | internal/amneziawgnet/identity.go:48-64 | The scan returns the longest-prefix match of the routing table in which later equal prefixes replace earlier ones |
| PeerIndex.OwnerExists | internal/amneziawgnet/identity.go:48-64 | There is an owner if and only if some prefix contains the address |
| PeerIndex.OwnerIsMostSpecific | internal/amneziawgnet/identity.go:48-64 | The owner's prefix is the longest containing one, the last among equals |
| PeerIndex.HitWins | internal/amneziawgnet/identity.go:51-59 | A containing prefix wins over shorter and earlier equal ones |
| UapiConfig.BuildUAPIConfig | internal/amneziawgnet/device.go:193-275 | The text is the device lines followed by the peer blocks, or an error for an undecodable key or an unbounded preamble |
| UapiConfig.ViewsReadBack | internal/amneziawgnet/device.go:252-272 | Peer blocks read back as the peers they were written for |
| UapiConfig.ConfigTellsPeersApart | internal/amneziawgnet/manager.go:191-199 | Equal texts mean the same peers in the same order: keys, preshared keys and allowed IPs |
| UapiConfig.PeersOfConfig | internal/amneziawgnet/device.go:193-275 | The peers can be read back from the whole text |
| UapiReading.DeviceReadsBack | internal/amneziawgnet/device.go:193-249 | A reader of its own finds every device setting under its own name, and a blank one is not there; a blank header protection key is the zero key |
| UapiReading.ConfigTellsDevicesApart | internal/amneziawgnet/manager.go:191-199 | Equal texts mean equal devices: keys, port, junk, paddings, types, signatures, every option and the peers, so that skipping an unchanged text loses nothing |
| V6Alias.ComputeDesired | internal/amneziawgnet/v6alias.go:58-73 | One alias for each peer with an email and an IPv6 address, the last peer of an email winning |
| V6Alias.DesiredIff | internal/amneziawgnet/v6alias.go:39-73 | An email has an alias if and only if IPv6 is enabled, an interface is given and a peer with that email has an IPv6 address; the last such peer's address goes to the IPv6 interface, or without one to the external interface |
| V6Alias.Diff | internal/amneziawgnet/v6alias.go:82-97 | Adds what is new or changed, removes what is gone or changed, and nothing when nothing changed |
| V6Alias.Aliases.Apply | internal/amneziawgnet/v6alias.go:120-139 | An address that was on the host and not this process's own stays; every command, refused ones included, is for an added or removed alias, so no change means no command; nothing given up is owned afterwards; without failures host and ownership are as computed |
| V6Alias.TouchesTwice | internal/amneziawgnet/v6alias.go:120-139 | Two series of commands about some aliases leave every other address on the host, and its ownership, as they were |
| V6Alias.Aliases.RemoveOwned | internal/amneziawgnet/v6alias.go:129-138 | Only an alias this process added and has not tried to delete since is deleted |
| V6Alias.Logged | internal/amneziawgnet/v6alias.go:120-139 | The log of commands keeps the rule that every deletion follows an own successful add |
| V6Alias.AllPresentIff | internal/amneziawgnet/v6alias.go:82-139 | After a change every wanted alias is on the host if and only if no own alias that one email gives up is wanted by another |
| V6Alias.RenameLosesAlias | internal/amneziawgnet/v6alias.go:82-139 | Renaming a peer that keeps its address takes its alias off the host |
| EmbeddedManager.SameConfigSameOwners | internal/amneziawgnet/manager.go:190-212 | An unchanged UAPI text means that every address has an owner with the same key |
| EmbeddedManager.SurvivorsOwned | internal/amneziawgnet/manager.go:84-101 | The flows kept after a change of peers still belong to the peer they were opened for, and every flow whose address keeps its key is kept |
| EmbeddedManager.Manager.DropReassignedFlows | internal/amneziawgnet/manager.go:84-101 | Exactly the flows whose address lost its owner or changed its key are aborted |
| EmbeddedManager.Manager.EnsureInPlace | internal/amneziawgnet/manager.go:184-226 | Nothing new: every flow stays and the device is not touched; otherwise just the flows with an unchanged owner stay; a failure changes nothing |
| EmbeddedManager.Manager.EnsureBuilt | internal/amneziawgnet/manager.go:228-282 | A rebuild starts with no flow, and a failed one leaves no interface |
| EmbeddedManager.PrintTells | internal/amneziawgnet/manager.go:306-311 | The fingerprint tells MTU, addresses and listen address apart, for addresses without its separators |
| EmbeddedManager.Manager.SameDeviceIff | internal/amneziawgnet/manager.go:164-184 | A device is kept if and only if it was made for the wanted addresses, MTU and listen address |
| EmbeddedManager.Manager.Ensure | internal/amneziawgnet/manager.go:147-282 | Succeeds if and only if the settings can be rendered and no device call is refused; the device an interface ends up with was made for the wanted addresses, MTU and listen address; it was last configured with the interface's own text unless a refused in-place change left it otherwise; every live flow keeps its owner; unchanged wishes, or a failure, issue no alias command, and after a success the host has the aliases as computed; owned aliases stay wanted by some interface unless a rebuild failed that alone wanted one |
| EmbeddedManager.Manager.Reconcile | internal/amneziawgnet/manager.go:316-338 | Only desired interfaces are left, and each desired one is up with its settings on a device made for them unless they cannot be rendered or a device call for it was refused in this call; an interface whose device stays keeps its flows but for reassigned addresses; alias commands are only about aliases some inbound gives up or newly wants and devices are configured only for changed inbounds: unchanged wishes issue no command, and unchanged settings configure no device and cost no flow |
| EmbeddedManager.Manager.Remove | internal/amneziawgnet/manager.go:344-355 | Exactly one interface goes, with its flows, and its aliases are taken off the host |
| EmbeddedManager.Manager.StopAll | internal/amneziawgnet/manager.go:358-366 | No interface is left, other programs' addresses stay; where each owned alias was wanted by some interface none is owned afterwards, and without failures exactly the owned addresses are off the host |
| EmbeddedManager.Manager.Open | internal/amneziawgnet/manager.go:61-80 | A flow is opened for the owner of its source, and for an unknown source none is |
| EmbeddedManager.OrphanedIff | internal/amneziawgnet/manager.go:172-282 | An interface that goes down with its aliases left on the host orphans one if and only if it alone wanted it |
| EmbeddedManager.FailedRebuildOrphans | internal/amneziawgnet/manager.go:228-282 | An inbound with one IPv6 peer whose rebuild fails loses sight of its alias |
| EmbeddedManager.RefusedThenReverted | internal/amneziawgnet/manager.go:184-212 | An in-place change that the device refused and then the listed settings again: the second push succeeds without a device call and leaves the device out of step; without refusals the same two pushes leave it in step |
| EmbeddedManager.Run | internal/amneziawgnet/manager.go:61-366 | After any run every alias deletion was of an own alias, an address of others that was on the host is still there, unless a rebuild failed every owned alias is wanted by an interface that is up, and, where no printed value has a line break, every live flow belongs to the peer it was opened for |
| EmbeddedManager.Step | internal/amneziawgnet/manager.go:61-366 | Every operation issues alias commands only about aliases that an inbound it is for gives up or newly wants, so repeated operations with unchanged wishes issue none |
| EventBus.Bus.Subscribe | internal/eventbus/bus.go:58-80 | Replaces an active subscriber of the same id and stops its worker; nothing after Stop |
| EventBus.Bus.Unsubscribe | internal/eventbus/bus.go:83-93 | Removes the subscriber with the id and stops its worker; an unknown id changes nothing |
| EventBus.SubscribedIs | internal/eventbus/bus.go:58-80 | Subscribing tells the id's earlier worker to quit and adds one that starts empty and sees every event from then on; nobody else is concerned |
| EventBus.UnsubscribedIs | internal/eventbus/bus.go:83-93 | Unsubscribing takes out the id's entry and tells its worker, and no other, to quit |
| EventBus.StartsEmpty | internal/eventbus/bus.go:41-52 | A new bus is empty, open and dispatching, with the default size for none |
| EventBus.AcceptedIff | internal/eventbus/bus.go:97-106 | An event is refused just when as many as the bus holds are waiting |
| EventBus.OneEventReachesAll | internal/eventbus/bus.go:97-136 | One event published on an idle bus is queued for every subscriber with room, dropped for each other one, and reaches nobody else |
| EventBus.HandlesOldest | internal/eventbus/bus.go:140-152 | A free worker takes the oldest event it holds |
| EventBus.ExitsIff | internal/eventbus/bus.go:140-152 | A worker leaves only when told to, never within an event, and takes none afterwards |
| EventBus.StopsForGood | internal/eventbus/bus.go:169-175 | After Stop nothing subscribes or is dispatched, and every worker that is not within an event can leave |
| EventBus.OnlyStopEnds | internal/eventbus/bus.go:115-175 | Nothing but Stop ends the bus, and the dispatcher never leaves in the middle of an event |
| EventBus.DeliveredInOrder | internal/eventbus/bus.go:119-131 | A send appends the next event the worker had to see, or drops it on a full queue |
| EventBus.SentKeeps | internal/eventbus/bus.go:122-131 | One send of the fan-out keeps the invariant, with workers and publishers interleaved |
| EventBus.RunKeeps | internal/eventbus/bus.go:58-175 | The invariant over every interleaving of publishing, receiving, locking, sending, workers, subscribing, replacing, unsubscribing and stopping |
| EventBus.ReachesNext | internal/eventbus/bus.go:58-175 | Every step can be taken in every reachable state, and leads to one |
| EventBus.DeliveredInPublicationOrder | internal/eventbus/bus.go:58-152 | What a subscriber has handled and holds is without repeats, in order of acceptance, of events dispatched since it subscribed, and its queue is bounded |
| EventBus.NothingElseMissed | internal/eventbus/bus.go:115-136 | A subscriber misses exactly the events that found its queue full |
| EventBus.IdsUnique | internal/eventbus/bus.go:54-80 | Active ids are unique |
| EventBus.NoInterference | internal/eventbus/bus.go:108-136 | Whatever one subscriber's queue and handler are like, every other one receives the same in every interleaving |
| EventBus.StepIsLocal | internal/eventbus/bus.go:115-152 | No step looks at one worker to decide what happens to another |
| Amnezia.EffectiveMTU | internal/amneziawg/params.go:646-655 | A set MTU is only capped; an unset one is the default, or as much less as the transport padding needs to fit the path |
| Params.ValidRangeIff | internal/amneziawg/params.go:450-471 | A range value is accepted if and only if it is blank or parses to ordered bounds within the maximum |
| Params.RangeParses | internal/amneziawg/params.go:545-563 | A printed range reads back as its bounds |
| Params.SingleParses | internal/amneziawg/params.go:545-563 | A printed number reads back as a range of one |
| Params.ValidateHNoOverlap | internal/amneziawg/params.go:488-505 | Accepts exactly when no two of the four header ranges overlap, a blank one standing for its default type |
| Params.HeadersTellApart | internal/amneziawg/params.go:479-505 | In an accepted set no packet type belongs to two headers |
| Params.ValidateObfChain | internal/amneziawg/params.go:290-337 | Refusing at the first excess is the same as bounding the whole packet: accepted exactly when blank, or every tag is known and the sum fits one datagram |
| Params.TagSizes | internal/amneziawg/params.go:283-331 | Random bytes and digits count by their number, given bytes by their digits, a time stamp by four and data by nothing; any other tag is refused |
| Params.NextIs | internal/amneziawg/params.go:297-305 | A tag is what stands between the first `<` and the first `>` after it |
| Params.NextEnds | internal/amneziawg/params.go:297-304 | Without `<` there is no further tag, and a tag that does not close is an error |
| Params.RandomTagFits | internal/amneziawg/params.go:104-108 | A generated signature tag is accepted up to one datagram |
| Params.ServerSizesIff | internal/amneziawg/params.go:192-263 | A server set is accepted if and only if its preamble, types and key are, no padding is negative, each padded message fits the device's buffer, and a padded initiation is not as long as a padded response |
| Params.PreambleBounded | internal/amneziawg/params.go:216-240 | An accepted preamble is at most 128 junk packets of one datagram each and signature packets of at most one |
| Params.ProtectionNeedsPadding | internal/amneziawg/params.go:601-617 | Header protection is accepted if and only if every padding has the twelve bytes of its nonce |
| Params.ValidTimerIff | internal/amneziawg/params.go:524-543 | A timer is accepted if and only if it is blank or a 32-bit window that is not just zero |
| Params.RekeyComesFirst | internal/amneziawg/params.go:565-588 | In an accepted pair of windows every rekey comes before every reject |
| Params.BandsApart | internal/amneziawg/params.go:170-180 | One value from each band: distinct, above the reserved types and within 2^31-1 |
| Params.GenerateJunk | internal/amneziawg/params.go:70-80 | The junk parameters of the preset, from the next draws of the random source |
| Params.GenerateObfuscation20 | internal/amneziawg/params.go:67-141 | The set is exactly what the random source's draws give, in the order they are made, or nothing when S2 was redrawn too often |
| Params.GivesUpIff | internal/amneziawg/params.go:84-88 | There is no set just when every try at S2 makes the padded handshake packets equally long |
| Params.PicksInRange | internal/amneziawg/params.go:67-141 | Whatever the source gives, each draw lies in its own range, and padded initiation and response differ in length |
| Params.PrintedIsDrawn | internal/amneziawg/params.go:67-141 | A set printed from such draws has each field from its own range (`Drawn`) |
| Params.DrawnIsSaveable | internal/amneziawg/params.go:192-267 | Every such set passes every validator, and MTU plus S4 fits the path |
| Params.EveryDrawComes | internal/amneziawg/params.go:51-141 | Every such set is drawn from some random source, so the generator leaves none of them out |
| PortForward.ParseForwardedPorts | internal/amneziawg/portfwd.go:20-46 | The valid tokens' specs, each once, duplicates told by their printed form |
| PortForward.TokensPart | internal/amneziawg/portfwd.go:24-25 | Comma and semicolon part the text alike wherever they stand |
| PortForward.TokenAlone | internal/amneziawg/portfwd.go:24-25 | A text without a separator is one token |
| PortForward.RangeEntry | internal/amneziawg/portfwd.go:48-61 | A range with any white space around it and its dash reads as its bounds if they are ports in order, and is dropped otherwise |
| PortForward.PortEntry | internal/amneziawg/portfwd.go:48-71 | A number with any white space around it reads as that port if it is one, and is dropped otherwise |
| PortForward.BlankEntry | internal/amneziawg/portfwd.go:30-33 | Blank entries are passed over |
| PortForward.ForwardedPortsInclude | internal/amneziawg/portfwd.go:85-92 | True exactly when some spec covers the port |
| PortForward.ExpandForwardedPorts | internal/amneziawg/portfwd.go:124-142 | The first distinct ports up to the limit, sorted |
| PortForward.StoppedEarly | internal/amneziawg/portfwd.go:127-139 | Stopping at the limit gives the start of the full list |
| PortForward.ExpansionExact | internal/amneziawg/portfwd.go:101-142 | The expansion is strictly increasing, covers only covered ports and has min(limit, number covered) of them |
| PortForward.KeepsLowestIff | internal/amneziawg/portfwd.go:101-142 | The expansion holds the lowest covered ports if and only if no port first named after the limit is lower than one named before it |
| PortForward.LowestPortLost | internal/amneziawg/portfwd.go:94-142 | For the text `2-101,1` port 1 is dropped and port 101 kept |
| PortForward.ExceedsForwardedPortsCap | internal/amneziawg/portfwd.go:112-122 | True exactly when more than 100 distinct ports are covered |
| PortForward.DesiredPortForwardKeys | internal/amneziawgnet/portfwd.go:156-165 | The keys of every forwarding peer's ports, both protocols |
| PortForward.DesiredKeysAre | internal/amneziawgnet/portfwd.go:137-165 | A key is desired if and only if a peer with that email, a port text and a target forwards the port |
| PortForward.ForwardedPortOwner | internal/amneziawgnet/portfwd.go:169-178 | The first forwarding peer that forwards the port |
| PortForward.OwnerIffKey | internal/amneziawgnet/portfwd.go:167-178 | A port has an owner if and only if there is a listener key for it, and then both of the owner's keys exist |
| PortForward.PortForwardSet.Reconcile | internal/amneziawgnet/portfwd.go:186-225 | Each missing desired key is tried once and no other; the open listeners are the desired keys minus those whose bind was refused in this call; wanted ones stay the same and the others are closed |
| PortForward.PortForwardSet.Close | internal/amneziawgnet/portfwd.go:241-249 | Every listener is closed |
| ImportedHosts.ChangedImports | internal/database/db.go:931-955 | The exact multiset differences in both directions, positions strictly increasing, added entries in list order |
| ImportedHosts.SameIff | internal/database/db.go:1009-1021 | Two hosts are the same import if and only if their lists hold the same items and all fields but row identity and placement agree |
| ImportedHosts.FirstMatch | internal/database/db.go:935-941 | The first unmatched old entry of the same kind, or none |
| ImportedHosts.MatchedDifference | internal/database/db.go:931-955 | A complete greedy matching leaves the two differences |
| Collector.Collector.Delta | internal/amneziawgkern/stats.go:114-140 | A poll's deltas and recorded counters, row by row |
| Collector.Collector.Prime | internal/amneziawgkern/stats.go:143-156 | The interface's counters are replaced by the primed ones |
| Collector.Collector.Forget | internal/amneziawgkern/stats.go:237-262 | Counters, endpoints, emails and handshakes of the interface are dropped, and no other's |
| Collector.Collector.SetEmails | internal/amneziawgkern/stats.go:301-346 | Keys of the interface that belong to no client are dropped from all four maps, and the given clients recorded |
| Collector.ForgottenWhole | internal/amneziawgkern/stats.go:235-262 | A later inbound that reuses the name inherits nothing |
| Collector.EmailsSet | internal/amneziawgkern/stats.go:289-346 | Afterwards a peer belongs to the client it was given for or to none, has a baseline only in the first case, and other interfaces' peers are as before |
| Collector.KeyTells | internal/amneziawgkern/stats.go:111-111 | With slash-free interface names a key tells interface and public key apart |
| Collector.OthersUntouched | internal/amneziawgkern/stats.go:143-156 | No operation on one interface touches another's counters |
| Collector.PollReports | internal/amneziawgkern/stats.go:114-140 | A poll reports exactly the gains of each peer's counter |
| Collector.TrafficConserved | internal/amneziawgkern/stats.go:114-140 | Over any polls of any interfaces a peer's reported traffic is its last value minus the baseline plus what each restart wiped out |
| Collector.MonotoneLosesNothing | internal/amneziawgkern/stats.go:124-131 | While the counter does not fall, nothing is added to last minus baseline |
| Collector.PrimeSetsBaseline | internal/amneziawgkern/stats.go:143-156 | After Prime the baseline is the primed value |
| Collector.DeltasNotNegative | internal/amneziawgkern/stats.go:118-138 | No delta is negative and none is empty |
| Socks5Udp.WriteDatagram | internal/amneziawgnet/relay.go:307-325 | Builds the datagram of section 7 of RFC 1928 |
| Socks5Udp.ReceiveEncoded | internal/amneziawgnet/relay.go:330-378 | The relay's reader returns destination and payload as they were written |
| Socks5Udp.ReceiveNamed | internal/amneziawgnet/relay.go:362-374 | The relay takes a name only where it is an address literal |
| Socks5Udp.AcceptEncoded | internal/amneziawgnet/egress.go:617-630 | The egress reader does too |
| Socks5Udp.AcceptNamed | internal/amneziawgnet/egress.go:740-752 | A domain datagram returns name, port and payload |
| Socks5Udp.AcceptedIsNamed | internal/amneziawgnet/egress.go:740-752 | An accepted domain datagram is, from the address type on, the encoding of what was read |
| Socks5Udp.HeadIgnored | internal/amneziawgnet/egress.go:740-788 | Reserved bytes and fragment number are not looked at, so every datagram is accepted that is an encoding from its address type on |
| Socks5Udp.ParseDomainHeader | internal/amneziawgnet/egress.go:740-752 | A successful domain parse has a name and a header within the datagram |
| Socks5Udp.AcceptedIsEncoding | internal/amneziawgnet/egress.go:768-788 | An accepted address datagram is, from the address type on, the encoding of what was read |
| Socks5Udp.ReadersAgree | internal/amneziawgnet/egress.go:755-788 | On address datagrams both readers accept the same and read the same |
| TokenBucket.Buckets.Take | internal/frontproxy/decoy_login_uptimekuma.go:131-147 | One token from the key's refilled bucket, refused calls included; a blank key is never limited |
| TokenBucket.LeastWindow | internal/frontproxy/decoy_login_uptimekuma.go:131-147 | The balance is the least that any window ending now would leave of a full bucket |
| TokenBucket.AllowedIff | internal/frontproxy/decoy_login_uptimekuma.go:103-147 | A call is allowed if and only if every window ending with it holds at most 20 calls plus one for every three seconds |
| TokenBucket.TakeEach | internal/frontproxy/decoy_login_uptimekuma.go:103-147 | Over any interleaved calls of any clients a call is allowed if and only if its client's own calls keep within the limit |
| TokenBucket.WindowBound | internal/frontproxy/decoy_login_uptimekuma.go:103-147 | The bound for one window |

## Left out

- KernelManager.Manager.StopAll: covers the managed ids only, like the source; interfaces known only from their configs stay.
- KernelSpec.SpecOf: parsing of `Instance.Address` is an input, and so is the name `DetectDefaultInterface` answers; `ValidatePeerSubnets` is not modelled.
- KernelHost.Host.ListForward: the FORWARD listing is a list of word lists with quotes trimmed, and rules of other chains do not appear in it.
- UdpRelay.RunKeeps: sending and receiving of datagrams, and the idle timeout that ends a pump, are not modelled beyond the fact that a pump may end at any time.
- EmbeddedManager.Run: a UDP association that completes after flows were dropped, and connections accepted within an operation, are outside the one-step view; port forwards are reconciled in `PortForward` and not tied into the manager.
- EmbeddedManager.Manager.Ensure: flow ownership is promised for settings whose printed values have no line break, which saving already demands.
- AgentCore.Core.Apply: the choice of loopback ports (`localize`), error texts and snapshots are not modelled; a process that would not stop is kept in `unstopped`.
- EventBus.NoInterference: the read lock is taken in one step that no writer interrupts; event contents and timestamps are not modelled; an event is its place among the accepted ones. A second `Stop`, which panics, is not modelled.
- Params.GenerateObfuscation20: the redraw loop is bounded by a number of draws, so termination of the unbounded loop is not claimed.
- Params.ValidateObfChain: byte lengths are counted in characters, which is the same for ASCII text.
- PortForward.PortForwardSet.Reconcile: sequential calls only; accepting and relaying connections and the process-wide flow caps are not modelled.
- Collector.TrafficConserved: runs of polls alone; `SetEmails` and `Forget` between polls reset baselines as their own contracts say. Recording endpoint sightings and handshakes is not modelled, since they keep no total; dropping them is.
- ImportedHosts.ChangedImports: `SyncHostsFromExternalProxy` writes rows through the database layer and is not modelled.
- Socks5Udp.WriteDatagram: IPv6 zones are not part of an address here.
- TokenBucket.AllowedIff: exact arithmetic over reals; floating-point rounding is not modelled, and calls on one key come with a clock that does not go back.
- PeerIndex.Lookup: addresses with a zone are not modelled.
- V6Alias.Aliases.Apply: changes other programs make to host addresses are not modelled.
- Everything else of the repository (HTTP handlers, TLS, database migrations, sidecars, the front end) would add only thin wrappers or needs semantics that are not shown.
