# Verified model of the SONiC operator

The operator manages SONiC switches as Kubernetes objects. A Switch controller discovers a switch's ports and
force-applies one `SwitchInterface` object for each; a SwitchInterface controller pushes each object's spec to the device
through a gRPC agent, which writes CONFIG_DB, saves, verifies and rolls back; a library of Redis accessors synchronises
addresses and VLAN memberships; and a ZTP server renders a bootstrap script for each switch. This project models that
logic in Dafny and proves what it guarantees, over every input, every failure and every interleaving.

`dafny verify dfyconfig.toml` checks everything.

## The modules

- `Text`, `InterfaceNames`: Go's decimal printing and scanning, truncated division, 64-bit wrap-around; the codec
  between `EthernetN` and `ethP-V`, and the Kubernetes object names derived from it.
- `Redis`, `EntrySync`, `AddressSync`, `VlanSync`: Redis as a map of hashes with SCAN pages, error replies that may or may
  not have taken effect; what a diff-and-write synchronisation does at every single write; the two Sync operations as
  methods proved to be plain assignment.
- `ConfigSchema`, `ConfigAccessor`: the validating setters, and the schema of CONFIG_DB over whole runs of writes.
- `AgentSet`, `AgentSchema`: the agent's two Set calls as a step machine over replies and as methods that follow it; and
  when they keep the schema.
- `Reconcile`, `Recorded`, `Agreement`, `Convergence`, `InterfaceController`: one port with both controllers, the agent, the device and
  the user as a transition system; agreement between spec and device, exactly when it lasts and when a reconcile reaches
  it; what a Ready object records of the device; and the reconcile method itself, with everyone else stepping between its exchanges, proved to follow that system.
- `SwitchLifecycle`: the Switch controller's reconcile as a class, over whole runs.
- `ClientPool`: the agent's double-checked Redis client pool with any number of goroutines.
- `ZtpBuilder`, `Shell`, `ShellGrammar`, `ZtpScript`, `ScriptText`, `ScriptRun`, `SwitchMatch`: the ZTP generator as a
  compiler. The builder's validation; a shell tokeniser and parser; the rendered text, proved to be read by a shell as
  exactly the intended program; all runs of that program; and the search for the requesting switch.

## What the code does not do

Some properties one would expect are false of the code. The model keeps the code as it is, shows the failure, and proves
the exact condition.

- Agreement between spec and device is lost without any user edit when a STATE_DB read fails during `ListInterfaces`: the
  port counts as down and the Switch controller sets its spec to Down (`FailedStateReadTurnsSpecDown`). Agreement
  survives exactly the events outside `Disturbs` (`AgreementKeptIff`), and is lost from exactly the worlds outside
  `Agreed` (`AgreementIsExact`).
- Without an error or an edit the two controllers can swap spec and device any number of times and never agree
  (`ControllersCanChaseForever`). A reconcile leaves agreement exactly when the last value written into the spec since its
  fetch, and any value the Switch controller still holds, is the fetched one (`ReconcileEndsAgreedIff`).
- The existence check after a Set's write never reports NOT_FOUND (`NeverNotFound`). A rollback restores the
  configuration exactly when the field existed before (`FailedSaveRestoresIff`). A rollback after a failed read-back is
  not saved again, so saved and running config differ unless the value was already there (`FailedReadBackIsNotSaved`).
  A rollback of an absent field writes the empty text, which breaks the schema (`SetKeepsSchemaIff`).
- An LLDP port description that is neither empty nor an Ethernet name, such as `Uplink`, makes an otherwise error-free
  reconcile Failed (`UplinkMakesReconcileFail`); it ends Ready exactly when the neighbour is readable
  (`ErrorFreeReconcileEndsIff`, `NeighborUnreadableIff`).
- A pooled client whose Close fails keeps its entry (`FailedCloseKeepsEntry`), and the name gets no client while no ping
  and no Close for it succeeds (`StuckIff`); if closed clients stay silent, never again (`FailedCloseSticks`).
- An agent's error status on GetDeviceInfo reaches the controller as an empty device and wipes the recorded MAC, firmware
  and SKU; the facts are always those last reported (`FactsAreLastReported`).
- Of two CONFIG_DB spellings of one port number only the last listed keeps its object (`EveryPortHasItsObject`).
- A relay list splits back into its servers exactly when none contains a comma, which an IPv6 zone may
  (`RelayRoundTripIff`); a mount word splits back exactly when no path contains a colon (`MountSplitsBackIff`).
- A container whose command starts with an empty element loses its `--entrypoint` (`DockerRunReadsAsIntendedIff`).
- The documentation promises that no container prevents another from being attempted; under `set -e` a failing `echo` in
  a container's `then` branch does (`AllAttemptedIff`).

## Model

| member | source | states |
|---|---|---|
| InterfaceNames.NativeRoundTrip | internal/agent/types/conversion_utils.go:79-103 | EthernetN to ethP-V and back is the identity for every 64-bit N, negative included |
| InterfaceNames.NativeRoundTripIff | internal/agent/types/conversion_utils.go:79-103 | for any accepted text the round trip lands on the canonical name of the number read, so it is the identity exactly on canonical names |
| InterfaceNames.CanonicalLaneIff | internal/agent/types/conversion_utils.go:79-103 | a pair (port, lane) survives the wrap-around arithmetic and truncated division exactly when it is canonical |
| InterfaceNames.AbstractRoundTripIff | internal/agent/types/conversion_utils.go:79-103 | ethP-V to EthernetM and back is the identity exactly for canonical pairs, over all 64-bit pairs and with overflow |
| InterfaceNames.AbstractNormalises | internal/agent/types/conversion_utils.go:79-103 | a lane of four or more is read back as a canonical name of the same port |
| InterfaceNames.EitherNameResolves | internal/agent/sonic/sonic_agent.go:352-365 | the agent takes the native and the abstract name of a port number for the same port, and refuses names with neither prefix |
| InterfaceNames.ObjectNamesCollideIff | internal/controller/switch_controller.go:161 | two ports share an object name exactly when the port numbers are equal and the switch names equal up to case, even if switch names contain `-eth` |
| InterfaceNames.ObjectNameInjective | internal/controller/switch_controller.go:161 | for lower-case switch names the map from switch and port number to object name is injective |
| InterfaceNames.ReadAndWriteSamePortIff | internal/agent/agent_client/client/client.go:197-204 | the port read through the handle is the port written through the native name exactly when the CONFIG_DB key was canonical |
| Redis.GlobPrefixSuffix | pkg/sonic/db_accessor.go:96-111 | a one-star pattern matches exactly the keys with that prefix and suffix, without overlap |
| Redis.Client.ScanKeys | pkg/sonic/db_accessor.go:96-111 | without an error reply the cursor loop returns exactly the matching keys, whatever the pages and repetitions |
| EntrySync.RunIsPartial | pkg/sonic/db_interface.go:159-199 | any run of a sync's writes, in any order and with repetitions, depends only on which keys it touched |
| EntrySync.SanctionedRunIsSteady | pkg/sonic/db_interface.go:159-199 | at every intermediate write wanted entries stay, nothing else appears, other keys are untouched, and the difference from the goal does not grow |
| EntrySync.CompleteRunAssigns | pkg/sonic/db_interface.go:159-199 | a run that dropped and filled everything is plain assignment, whatever the order and repetitions |
| EntrySync.AssignedMeetsGoal | pkg/sonic/db_interface.go:159-199 | after the assignment exactly the wanted entries exist and nothing is pending |
| EntrySync.RetriesOnlyProgress | pkg/sonic/db_vlan.go:142-158 | any number of attempts, each cut off anywhere, only shrink the difference, never lose a wanted entry and never touch another key |
| AddressSync.PatternIsFamily | pkg/sonic/db_interface.go:142-157 | the SCAN pattern of an interface finds exactly its own address keys |
| AddressSync.FamiliesDisjoint | pkg/sonic/db_interface.go:75-88 | no address key belongs to two interfaces: neither Ethernet1 and Ethernet10 nor two tables |
| AddressSync.IpPlanAssigns | pkg/sonic/db_interface.go:159-199 | the computed removals and additions, carried out, make the listed prefixes the desired set and change no other key |
| AddressSync.IpPlanOutcome | pkg/sonic/db_interface.go:159-199 | every cut-off of the plan is steady, the whole plan is the assignment, and no write is made when the prefixes already match |
| AddressSync.AddressAccessor.ListIPAddresses | pkg/sonic/db_interface.go:142-157 | returns exactly the prefixes whose keys are in the table of the interface's kind: LOOPBACK_INTERFACE, VLAN_INTERFACE, INTERFACE or PORTCHANNEL_INTERFACE; other names are refused |
| AddressSync.AddressAccessor.RemoveIPAddresses | pkg/sonic/db_interface.go:126-140 | removes a prefix of the given list from that table and touches nothing else, all of it on success; without an error reply it succeeds exactly when all parse |
| AddressSync.AddressAccessor.AddIPAddresses | pkg/sonic/db_interface.go:110-124 | adds a prefix of the given list to that table as marker entries and touches nothing else, all of it on success; without an error reply it succeeds exactly when all parse |
| AddressSync.IpTableIs | pkg/sonic/db_interface.go:75-88 | the table of each of the four kinds of name, and none for any other |
| AddressSync.AddressAccessor.SyncIPAddresses | pkg/sonic/db_interface.go:159-199 | after success a key such as INTERFACE, name and prefix is in the store exactly when the prefix is desired, new ones as markers; only keys of that interface in that table change, at every failure; steady at every write; silent when nothing differs; without an error reply it succeeds exactly when all differing prefixes parse |
| VlanSync.PatternIsMemberFamily | pkg/sonic/db_vlan.go:109-128 | the SCAN pattern of a port finds exactly its own membership keys |
| VlanSync.SecondPart | pkg/sonic/db_vlan.go:109-128 | the second part of a split membership key is its VLAN |
| VlanSync.VlanPlanOutcome | pkg/sonic/db_vlan.go:130-159 | for every listing and every map iteration order each cut-off is steady and the whole plan is the map assignment |
| VlanSync.VlanNameOfNumberIff | pkg/sonic/db_accessor.go:120-129 | the name of a VLAN number is accepted exactly for 1 to 4094 |
| VlanSync.VlanAccessor.EnsureVLANMember | pkg/sonic/db_vlan.go:80-94 | writes the tagging mode under VLAN_MEMBER, VLAN and port, exactly for a valid VLAN, an Ethernet port and tagged or untagged, and no other key |
| VlanSync.VlanAccessor.RemoveVLANMember | pkg/sonic/db_vlan.go:96-107 | deletes the membership exactly when VLAN and port are valid, and no other key |
| VlanSync.VlanAccessor.ListPortVLANs | pkg/sonic/db_vlan.go:109-128 | returns exactly the VLANs the port is a member of |
| VlanSync.VlanAccessor.ValidateAll | pkg/sonic/db_vlan.go:130-141 | the validation loop decides validity of all desired memberships, in any order |
| VlanSync.VlanAccessor.SyncPortVLANs | pkg/sonic/db_vlan.go:130-159 | after success the VLAN_MEMBER keys of the port are exactly those of the desired VLANs, in their modes; only such keys change, at every failure; steady at every write; a port that is no Ethernet or a bad membership issues no write; the exact success condition without error replies |
| ConfigSchema.WriteOk | pkg/sonic/db_vlan.go:13-94 | every command a validated write issues meets the schema |
| ConfigSchema.CommandKeepsSchema | pkg/sonic/db_port.go:128-180 | a command that meets the schema keeps it |
| ConfigSchema.MemberAndAddressWrites | pkg/sonic/db_vlan.go:80-107 | the schema's membership and address writes are on the same keys as those of the syncs and refused for the same arguments |
| ConfigSchema.SchemaMeansRules | pkg/sonic/db_port.go:128-180 | a store that meets the schema is within the rules, table by table and field by field |
| ConfigSchema.SchemaOverAllRuns | pkg/sonic/db_port.go:128-180 | from an empty CONFIG_DB, any sequence of writes, each possibly lost, keeps vlanid the suffix of its key and within 1 to 4094, mtu within 68 to 9216, speed positive, fec, tagging mode and admin status within their sets, alias non-empty and relay lists joins of addresses |
| ConfigSchema.RelayRoundTripIff | pkg/sonic/db_vlan.go:161-177 | the stored relay list splits back into the given servers exactly when no server contains a comma |
| ConfigSchema.SchemaMakesSyncApplicable | pkg/sonic/db_vlan.go:109-128 | a store that meets the schema has only three-part membership keys, as the VLAN sync requires |
| ConfigAccessor.PerformedKeepsSchema | pkg/sonic/db_accessor.go:113-136 | every setter call, failed or not, keeps the schema |
| ConfigAccessor.Accessor.SetMTU | pkg/sonic/db_port.go:128-139 | only the mtu of that port changes, to the given value and only for valid arguments, which fail only on an error reply; success means it has that value; the schema is kept either way |
| ConfigAccessor.Accessor.SetFEC | pkg/sonic/db_port.go:141-154 | only the fec of that port changes, to the given value and only for valid arguments, which fail only on an error reply; success means it has that value; the schema is kept either way |
| ConfigAccessor.Accessor.SetSpeed | pkg/sonic/db_port.go:156-167 | only the speed of that port changes, to the given value and only for valid arguments, which fail only on an error reply; success means it has that value; the schema is kept either way |
| ConfigAccessor.Accessor.SetPortAlias | pkg/sonic/db_port.go:169-180 | only the alias of that port changes, to the given value and only for valid arguments, which fail only on an error reply; success means it has that value; the schema is kept either way |
| ConfigAccessor.Accessor.SetAdminStatus | pkg/sonic/db_interface.go:53-73 | only the admin status of the entry in LOOPBACK_INTERFACE, VLAN, PORT or PORTCHANNEL, by the kind of name, changes, and only to up or down; the schema is kept |
| ConfigAccessor.Accessor.EnsureVLAN | pkg/sonic/db_vlan.go:13-22 | only the vlanid of that VLAN changes, to the suffix of its valid name; the schema is kept |
| ConfigAccessor.Accessor.EnsureVLANInterface | pkg/sonic/db_vlan.go:24-37 | only that entry changes; success means marker and, when given, VRF are there; the schema is kept |
| ConfigAccessor.Accessor.DeleteVLAN | pkg/sonic/db_vlan.go:39-47 | only that entry goes, exactly for a valid name; the schema is kept |
| ConfigAccessor.Accessor.DeleteVLANInterface | pkg/sonic/db_vlan.go:49-57 | only that entry goes, exactly for a valid name; the schema is kept |
| ConfigAccessor.Accessor.SetVLANDescription | pkg/sonic/db_vlan.go:70-78 | only the description of that VLAN changes, exactly for a valid name; the schema is kept |
| ConfigAccessor.Accessor.EnsureDHCPRelay | pkg/sonic/db_vlan.go:161-177 | only the relay list of that VLAN changes, to the joined servers, exactly for a valid name and a non-empty list that all parses; the schema is kept |
| ConfigAccessor.Accessor.DeleteDHCPRelay | pkg/sonic/db_vlan.go:179-187 | only the relay field goes, exactly for a valid name; the schema is kept |
| ConfigAccessor.Accessor.EnsureLoopback | pkg/sonic/db_interface.go:90-98 | only the bare loopback entry gets its marker, exactly for a valid name; the schema is kept |
| ConfigAccessor.Accessor.DeleteLoopback | pkg/sonic/db_interface.go:100-108 | only the bare loopback entry goes, exactly for a valid name; the schema is kept |
| AgentSet.StepKeepsCallInv | internal/agent/sonic/sonic_agent.go:374-421 | past its write a call's value stands in the running config, past its save in the saved config too |
| AgentSet.SetUnderEveryFailure | internal/agent/sonic/sonic_agent.go:347-465 | for every failure pattern at most one field of one PORT key changes, to the requested or the earlier value, and success means running and saved config both hold the request |
| AgentSet.FailedSaveRestoresIff | internal/agent/sonic/sonic_agent.go:374-400 | a failed save with a working rollback restores CONFIG_DB exactly when the port already had the field |
| AgentSet.FailedReadBackIsNotSaved | internal/agent/sonic/sonic_agent.go:404-421 | a rolled-back failed read-back leaves the request in the saved config; the running one is restored exactly when the port had the field, and equals the saved one exactly when the earlier value was the requested one |
| AgentSet.NeverNotFound | internal/agent/sonic/sonic_agent.go:738-808 | an undisturbed Set call never reports NOT_FOUND, not even for an unknown port |
| AgentSchema.ConfigAfterCall | internal/agent/sonic/sonic_agent.go:374-421 | three questions about the replies decide the config a Set call leaves: the earlier one, the written one, or the rolled-back one |
| AgentSchema.CodeAfterCall | internal/agent/errors/errors.go:12-22 | for every reply sequence the failing exchange decides the code a Set call reports: 101, 203, 205 or 0 |
| AgentSchema.SetKeepsSchemaIff | internal/agent/sonic/sonic_agent.go:374-421 | a Set call keeps the schema of CONFIG_DB if and only if no rollback of an absent field takes effect and no value outside the schema stays written |
| AgentSet.SonicAgent.SetInterfaceAliasName | internal/agent/sonic/sonic_agent.go:713-808 | follows the step machine; code 0 means the alias stands in running and saved config |
| AgentSet.SonicAgent.SetInterfaceAdminStatus | internal/agent/sonic/sonic_agent.go:347-465 | follows the step machine; code 0 means the status stands in running and saved config |
| Reconcile.NextKeepsCtlInv | internal/controller/switchinterface_controller.go:64-201 | what a reconcile has achieved at each point survives any step of anyone |
| Reconcile.CtlInvOverRuns | internal/controller/switchinterface_controller.go:64-201 | the same over every run, interleaving and failure |
| Reconcile.ReadyMeansApplied | internal/controller/switchinterface_controller.go:67-200 | a reconcile ending Ready recorded the spec's state, Up or Down, and that value stands in running and saved config of the port NativeName denotes; past Pending every end is Ready or Failed, every error Failed |
| Reconcile.MissingNeighborKeepsReady | internal/controller/switchinterface_controller.go:178-197 | a neighbour that is not found keeps Ready and clears the recorded neighbour |
| Recorded.ReadNeighborReports | internal/agent/sonic/sonic_agent.go:610-651 | the neighbour read has the chassis id as MAC, the system name, and as handle the converted port description or, without one, the port id; there is none exactly without chassis id or system name |
| Recorded.ShowsOverRuns | internal/controller/switchinterface_controller.go:105-200 | what a reconcile has recorded or is about to record of operational state and neighbour is what APPL_DB says, over every run |
| Recorded.ReadyRecordsDevice | internal/controller/switchinterface_controller.go:178-197 | in every run a reconcile that ended Ready recorded each part of the neighbour from its own LLDP field, cleared exactly when chassis id or system name is missing, and Up only for a port whose oper_status is up |
| InterfaceController.InterfaceReconciler.Set | internal/agent/agent_client/client/client.go:153-186 | a Set call as the controller sees it, others stepping in between: success only after the agent's code 0 arrived |
| InterfaceController.InterfaceReconciler.GetInterface | internal/agent/sonic/sonic_agent.go:467-572 | the agent's reads in order; failed STATE_DB or APPL_DB reads count as down, other failures end Failed |
| InterfaceController.InterfaceReconciler.GetNeighbor | internal/agent/sonic/sonic_agent.go:574-651 | error, NOT_FOUND or the neighbour, as the LLDP entry says |
| InterfaceController.InterfaceReconciler.Push | internal/controller/switchinterface_controller.go:105-200 | the imperative body after the read follows the transition system to its patch |
| InterfaceController.InterfaceReconciler.Reconcile | internal/controller/switchinterface_controller.go:64-201 | for every interleaving the method ends where the transition system leads; an error recorded Failed; a recorded Ready means the fetched spec stands in running and saved config and operational state and neighbour are those of APPL_DB |
| Agreement.PublishedNamesIff | internal/controller/switch_controller.go:171-176 | handle and native name published for a port denote that port exactly when its key was canonical |
| Agreement.ValuesAgreeIff | internal/agent/sonic/sonic_agent.go:264-277 | the four values are admin_status and alias under PORT and admin_status under PORT_TABLE in STATE_DB, against Up or Down and the handle |
| Agreement.PairedOverRuns | internal/controller/switchinterface_controller.go:64-201 | no event of any kind makes a running reconcile one of another object or breaks what it has achieved, so every world reached from a published object at rest is paired |
| Agreement.AgreementKeptIff | internal/controller/switch_controller.go:123-127 | agreement — the four values spec, CONFIG_DB, STATE_DB and alias agree and nothing in flight can end that — survives an event exactly when it is no edit to another value and no list that takes a failed STATE_DB read of an up port for down |
| Agreement.AgreementOverRuns | internal/controller/switchinterface_controller.go:105-154 | agreement holds over every undisturbed run, with all failures and rollbacks, also with a reconcile or a list in flight |
| Agreement.LosingRun | internal/agent/sonic/sonic_agent.go:374-421 | if the values agree but a running reconcile is stale or would roll back to another value, some run of its own exchanges ends agreement |
| Agreement.AgreementIsExact | internal/controller/switchinterface_controller.go:105-154 | `Agreed` is exactly the set of paired worlds from which no undisturbed run loses agreement of the four values |
| Agreement.FailedStateReadTurnsSpecDown | internal/agent/sonic/sonic_agent.go:253-277 | one failed STATE_DB read during a list turns the spec of an agreed up port to Down |
| Agreement.ReadyAgreesIff | internal/controller/switchinterface_controller.go:105-154 | a world whose reconcile finished Ready agrees exactly when the spec is the one reconciled, the device has caught up and the Switch controller holds no other value |
| Agreement.SpecIsLastWritten | internal/controller/switch_controller.go:151-178 | over every run the spec differs from the initial one only in the last admin state written by a user or a list |
| Agreement.ReconcileEndsAgreedIff | internal/controller/switchinterface_controller.go:105-154 | a reconcile interleaved with anything that ended Ready leaves agreement, once the device has caught up, exactly when the last value written since its fetch and any value still held is the fetched one |
| Convergence.NeighborUnreadableIff | internal/agent/sonic/sonic_agent.go:616-638 | the neighbour lookup fails exactly on an LLDP entry whose port description is neither empty nor an Ethernet name |
| Convergence.SmoothRunEnds | internal/controller/switchinterface_controller.go:64-201 | from any point of an error-free reconcile, whatever interleaves, at most its rank of exchanges lead to its patch, Ready exactly with a readable neighbour |
| Convergence.ErrorFreeReconcileEndsIff | internal/controller/switchinterface_controller.go:64-201 | an error-free reconcile past Pending of an existing port, with anything interleaved, applies its spec, records Up exactly for a port that is operationally up, and ends Ready if and only if the neighbour is readable, Failed otherwise; if Ready it leaves agreement under the exact condition on spec and held value |
| Convergence.ErrorFreeReconcileConverges | internal/controller/switchinterface_controller.go:105-154 | undisturbed and with a readable neighbour it ends Ready and reaches agreement, from any spec of Up or Down and any device value |
| Convergence.UplinkMakesReconcileFail | internal/controller/switchinterface_controller.go:178-197 | a neighbour whose port description is `Uplink` makes the error-free reconcile Failed although the spec was applied |
| Convergence.StaleReconcileDisagrees | internal/controller/switchinterface_controller.go:64-201 | while an error-free reconcile of another value is under way there is no agreement |
| Convergence.CrossedReconcile | internal/controller/switch_controller.go:151-178 | a reconcile that overlaps a list swaps spec and device: one change of the spec, no agreement at any moment |
| Convergence.ControllersCanChaseForever | internal/controller/switch_controller.go:151-178 | for every number there is an error-free run without an edit with that many changes of the spec that never agrees, not even in between |
| Convergence.EveryPortCanAgreeOrOppose | internal/controller/switch_controller.go:151-178 | for every 64-bit port number worlds that agree and worlds at rest that are opposed exist, for Up and for Down |
| SwitchLifecycle.Done | internal/controller/switch_controller.go:123-127 | the interfaces applied before the loop ends or fails |
| SwitchLifecycle.SwitchObject.EnsureInterface | internal/controller/switch_controller.go:151-184 | replaces exactly the object of that interface, only for a working apply and a status of up or down: handle, native name and switch are its own, Up stands for up and Down for down |
| SwitchLifecycle.SwitchObject.EnsureInterfaces | internal/controller/switch_controller.go:123-127 | applies the listed interfaces up to the first error |
| SwitchLifecycle.SwitchObject.Reconcile | internal/controller/switch_controller.go:79-149 | the whole new state of a reconcile, with early returns, the append loop and the deferred patch; an error only from the finalizer or an interface |
| SwitchLifecycle.FinalizerIff | internal/controller/switch_controller.go:82-84 | over every run the finalizer is there exactly when it was or some finalizer patch worked |
| SwitchLifecycle.ReadyIff | internal/controller/switch_controller.go:86-99 | over every run, whatever the agent does, Ready holds exactly when it held or some reconcile past the finalizer had a working patch |
| SwitchLifecycle.ReadyFromSecondReconcile | internal/controller/switch_controller.go:79-99 | with working patches every Switch is persisted Ready from its second reconcile on |
| SwitchLifecycle.PortsAreLastRecorded | internal/controller/switch_controller.go:129-141 | over every run the ports are exactly the last recorded list, never an accumulation |
| SwitchLifecycle.PortsUntouched | internal/controller/switch_controller.go:129-141 | without a recorded list the ports stay as they were |
| SwitchLifecycle.EveryListRecorded | internal/controller/switch_controller.go:129-141 | with working patches, from the third reconcile on every processed non-empty list is the one kept |
| SwitchLifecycle.FactsAreLastReported | internal/controller/switch_controller.go:107-115 | over every run MAC, firmware and SKU are what the last recording reconcile was told, and are lost exactly when that was an agent error status or an empty report |
| SwitchLifecycle.FactsUntouched | internal/agent/agent_client/client/client.go:84-111 | without a recording reconcile the facts stay as they were |
| SwitchLifecycle.SameObjectIff | internal/controller/switch_controller.go:161 | two listed entries share an object exactly when they are spellings of one port number |
| SwitchLifecycle.EveryPortHasItsObject | internal/controller/switch_controller.go:151-184 | a completed list leaves every listed port, in whatever spelling, with an object; the last entry of a port number wins, so it is an entry's own exactly when no later one is of that number; by field it has that entry's names, the switch, and the admin state the other controller turns back into the reported status; handle and native name denote one port exactly for a canonical key |
| SwitchLifecycle.OtherSwitchesUntouched | internal/controller/switch_controller.go:151-184 | no reconcile touches the object of another switch's port |
| ClientPool.NextKeepsInv | internal/agent/sonic/sonic_agent.go:106-173 | every step of every goroutine keeps the locks, pool, client and call invariants |
| ClientPool.InvOverHistories | internal/agent/sonic/sonic_agent.go:106-173 | the invariant in every reachable state of any number of interleaved calls |
| ClientPool.PoolGuarantees | internal/agent/sonic/sonic_agent.go:106-173 | in every reachable state every client was closed, is the entry of its name, or is on trial with the call that made it; a returned call holds no lock, and its client was made for its name and answered its ping |
| ClientPool.EveryClientOnItsDatabase | internal/agent/sonic/sonic_agent.go:39-72 | in every reachable state every client is on the database of its name, 4 for CONFIG_DB, 6 for STATE_DB, 0 for APPL_DB; two entries share one exactly when they are one or those of PFC_WD_DB and FLEX_COUNTER_DB |
| ClientPool.StepsAreBounded | internal/agent/sonic/sonic_agent.go:106-173 | a Connect call takes at most eleven steps |
| ClientPool.OthersStay | internal/agent/sonic/sonic_agent.go:106-173 | a step of one goroutine does not move another |
| ClientPool.SomeoneCanAdvance | internal/agent/sonic/sonic_agent.go:106-173 | with a mutex that holds back new readers behind an announced writer, some call can advance while any has not returned: no deadlock, every lock is released |
| ClientPool.FailedCloseKeepsEntry | internal/agent/sonic/sonic_agent.go:123-132 | a failed Close returns an error and leaves the closed client in the pool |
| ClientPool.EntryStartsStuck | internal/agent/sonic/sonic_agent.go:106-173 | from any state with an entry, only calls that had already returned can have got a client |
| ClientPool.StuckIff | internal/agent/sonic/sonic_agent.go:106-173 | over any stretch of a history a name stays stuck with its entry, every call ending without a client, exactly when no ping and no Close of the entry succeeds in a call for the name |
| ClientPool.FailedCloseClosesAll | internal/agent/sonic/sonic_agent.go:123-132 | a failed Close leaves only closed clients under the name, its entry included |
| ClientPool.FailedCloseSticks | internal/agent/sonic/sonic_agent.go:106-173 | after any failed Close of an entry, if closed clients stay silent, no call for the name ever gets a client again |
| ZtpBuilder.ContainerDockerUser | internal/ztp/generated_mode.go:156-174 | an error exactly for a group without a user |
| ZtpBuilder.HostPathVolumes | internal/ztp/generated_mode.go:176-194 | the loop accepts exactly the valid volume lists and maps each name to its declared path |
| ZtpBuilder.ContainerVolumeMounts | internal/ztp/generated_mode.go:196-218 | the loop accepts exactly known, absolute, pairwise distinct mounts and builds one text for each, in order |
| ZtpBuilder.MountFromUniqueVolume | internal/ztp/generated_mode.go:176-218 | a valid mount's host path is that of the one declared volume of its name, and absolute |
| ZtpBuilder.MountSplitsBackIff | internal/ztp/generated_mode.go:196-218 | a mount word splits back into host path, mount path and mode exactly when neither path contains a colon |
| ZtpBuilder.ReadKubeconfig | internal/ztp/generated_mode.go:101-114 | fails exactly when some container injects and the file is unconfigured or unreadable |
| ZtpBuilder.BuildContainers | internal/ztp/generated_mode.go:116-151 | accepts exactly valid containers and keeps number and order |
| ZtpBuilder.BuildTemplateData | internal/ztp/generated_mode.go:64-154 | succeeds exactly on valid switches |
| Shell.LexRendered | internal/ztp/generated_mode.go:220-222 | text written from quoted values, literals, operators, blanks and comments is split into exactly their tokens |
| ShellGrammar.QuoteRoundTrip | internal/ztp/generated_mode.go:220-222 | `shellQuote` makes one word of any NUL-free text, which reads back as that text |
| ShellGrammar.LineReadsBack | internal/ztp/templates/generated-mode.sh.gotmpl:46-55 | a written command is read back as its words and redirections |
| ShellGrammar.CommandParses | internal/ztp/templates/generated-mode.sh.gotmpl:52-52 | a bracketed list or command is parsed back to its structure |
| ShellGrammar.PipelineParses | internal/ztp/templates/generated-mode.sh.gotmpl:48-48 | so is a pipeline |
| ShellGrammar.ListParses | internal/ztp/templates/generated-mode.sh.gotmpl:46-53 | so is an AND-OR list, whose two operators bind alike to the left |
| ShellGrammar.GuardedParses | internal/ztp/templates/generated-mode.sh.gotmpl:45-56 | so is a guarded container block |
| ZtpScript.RunLineTexts | internal/ztp/templates/generated-mode.sh.gotmpl:53-53 | the words of the docker run line are the intended argument vector exactly when the command is empty or starts with a non-empty element |
| ZtpScript.DockerRunReadsAsIntendedIff | internal/ztp/templates/generated-mode.sh.gotmpl:53-53 | a shell reads the rendered docker run line of every accepted container as flags, one word a mount, entrypoint, image, command, arguments, exactly under that condition |
| ZtpScript.ContainerLineValid | internal/ztp/templates/generated-mode.sh.gotmpl:46-55 | every command of an accepted container's block is a line a shell can read |
| ZtpScript.LineReadsAsIntendedIff | internal/ztp/templates/generated-mode.sh.gotmpl:46-55 | a shell reads every command of an accepted container's block as exactly the words and redirections the Switch asks for, the run line under its condition |
| ZtpScript.HostLineMeansIntended | internal/ztp/templates/generated-mode.sh.gotmpl:41-57 | the hostname, save and sync lines carry the intended words |
| ZtpScript.ChownOperand | internal/ztp/templates/generated-mode.sh.gotmpl:49-49 | the unquoted chown operand is one non-empty word, user and group, and the file is the credential file |
| ScriptText.BlockPiecesAre | internal/ztp/templates/generated-mode.sh.gotmpl:45-56 | the template's lines for a container are the written form of its guarded block |
| ScriptText.AcceptedLinesValid | internal/ztp/generated_mode.go:64-154 | every line rendered for an accepted Switch is readable |
| ScriptText.TailParses | internal/ztp/templates/generated-mode.sh.gotmpl:41-57 | the tokens of the rendered script are parsed as the intended program |
| ScriptText.ScriptReadsBack | internal/ztp/templates/generated-mode.sh.gotmpl:41-57 | for every accepted Switch with NUL-free texts a shell reads the rendered script as exactly the program whose runs are proved below, every command with its words and redirections |
| ScriptText.ScriptReadsAsIntendedIff | internal/ztp/templates/generated-mode.sh.gotmpl:41-57 | a shell reads the rendered script as the one the Switch asks for, every word and redirection of every command in its block, if and only if no command starts with an empty element |
| ScriptText.CredentialReadyBeforeStart | internal/ztp/templates/generated-mode.sh.gotmpl:46-53 | in every run, before an injecting container's docker run and each with success, the kubeconfig was printed into the decoder, which wrote one file, that file was chowned to the user and set to 0600, and it is the host side of the credential mount |
| ScriptRun.BodyRun | internal/ztp/templates/generated-mode.sh.gotmpl:45-53 | docker run is reached exactly when the preparation worked, and then every command ran in order |
| ScriptRun.EachCommandOnce | internal/ztp/templates/generated-mode.sh.gotmpl:2-57 | no run executes a command twice, and the final sync runs exactly when nothing stopped the script |
| ScriptRun.AttemptsInSpecOrder | docs/usage/provisioning.md:78-80 | in every run the attempted containers are the first ones of the spec, once each and in order, with the exact condition for each |
| ScriptRun.AllAttemptedIffPrefixSucceeds | docs/usage/provisioning.md:126-127 | as long as messages can be written, all containers are attempted exactly when the whole strict prefix succeeded, and none otherwise |
| ScriptRun.AllAttemptedIff | internal/ztp/templates/generated-mode.sh.gotmpl:54-56 | without that assumption: exactly when also every container but the last started or had its message written |
| ScriptRun.ContainersAreIsolated | docs/usage/provisioning.md:78-80 | what a container executes depends only on its own commands' outcomes once its turn comes |
| ScriptRun.StartedOrLogged | docs/usage/provisioning.md:78-80 | docker run happens exactly when reached and prepared; a failure is logged exactly when the container did not start |
| ScriptRun.CredentialOrder | internal/ztp/templates/generated-mode.sh.gotmpl:46-53 | an injecting container's docker run comes only after print, decode, chown and chmod, in that order and each with success |
| SwitchMatch.MatchingSwitch | internal/ztp/ztp.go:101-134 | succeeds exactly when the client's address and the list are available, all configured addresses parse and exactly one is the client's, and returns that switch |
| SwitchMatch.OrderDoesNotMatter | internal/ztp/ztp.go:112-129 | for every permutation of the list the same switch is designated |

## Left out

- Redis, D-Bus, netlink, gRPC, HTTP and Kubernetes client internals: stores and arbitrary outcomes stand for them; `netip` parsing and base64 are parameters.
- A stale informer cache or a second writer of a Switch's status: each reconcile starts from what the API server holds.
- A gRPC call that the client abandons while the agent goes on with it, and concurrent callers of the two Set functions: their rollback is not isolated.
- Unicode case mapping: object names are lower-cased over ASCII only, which covers every valid Kubernetes name.
- Interface and port names with `|` or glob characters: the listing methods require names without them, as the accessors assume.
- The script's first four lines and its ONIE here-documents as text: `ScriptText` starts at the hostname line, `ScriptRun` covers all commands.
- Bash builtins and expansions the template does not use: the tokeniser refuses them.
- The deletion paths of both reconcilers: they only remove the finalizer.
- Generated code, CLI, table rendering, the ONIE file server, device information, simple getters and speed lists: only easy claims.
- The wait between writing and verifying in a Set call: it is a point where other steps may come, not a length of time.
