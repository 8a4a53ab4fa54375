# AKFA VPN control plane: a verified model

The AKFA panel keeps users, devices, access profiles and VPS nodes in a database, renders an Xray
configuration for each node from it, and pushes that configuration over SSH. Around this core sit
traffic accounting from remote counters, background installs, an apply script with backup and
rollback, subscription documents, one-time passwords, a login rate limiter and a watchdog. This
project states what those parts promise and proves it with Dafny (`dafny verify dfyconfig.toml`).

How the model is laid out:

- `Entities`, `XrayConfig`, `DomainLists`, `Decimal`: rows, configurations and rendering.
- `ConfigApply`, `Requests`: one push to a set of nodes, and every request as a plan (new tables,
  pushed nodes, commit or roll back) followed by the push. `ControlPlane.Panel` is the same code as
  the source runs it, loops over tables and session included; each of its methods is proved equal to
  `Requests.Step`.
- `Rendering`, `Agreement`, `Rollbacks`, `Runs`: when two databases render the same configuration, which
  nodes a request changes without pushing to them, what an attempt leaves when its request rolls back,
  and agreement between servers and database over runs. `RowOrder` lifts it to rows that come in another
  order at every push.
- `RequestEffects`, `NodeEffects`: what each request answers and writes, by the rows alone.
- `Access`, `Devices`, `NodeReferences`, `Subscription`, `ClientRouting`, `ImportedMerge`: who is let in,
  registration, primary nodes, the listed servers, blocked domains, and servers that were taken over with
  clients of their own.
- `Counters`, `Traffic`, `Collection`, `Metering`: remote counters that grow and restart, the books kept from
  them, what one collection does to each row, and counters and books run together.
- `InstallJobs`, `RemoteApply`, `Watchdog`, `RateLimit`: four state machines over all interleavings,
  all command outcomes, all sequences of checks and all sequences of calls.
- `Yaml`, `ClashDocument`, `ClashReading`, `Connection`, `Base32`: a printer, the document it is for, what a
  client finds in it and how that fits the server, and a codec, each against an independent reader or inverse.

What the environment decides is a parameter: the outcome of each attempt on a server
(`Attempt`), what a server runs after a failed attempt, the replies of shell commands and what they
did before failing (`World`), the answer of the configuration validator, clocks, the values of
hashes, UUIDs and keys, and lower-casing outside ASCII (`DomainLists.LOWER`).

## Where the code does less than a reader may expect

- `replace` makes the new node primary for every user linked to the old one, not only where the old
  one was primary (README.md:478): `NodeReferences.ReplacementBecomesPrimaryExactly`.
- A request can change what a node outside its pushed set should run. The exact condition is
  `Agreement.Disturbs`, and `Agreement.AffectedSetIsExact` is an equivalence.
- Applying to a node that is not yet online renders it without clients and then marks it online
  (`Runs.FlipIsExact`). A rolled-back registration can leave a device on a server that no row mentions
  (`Devices.RollbackLeavesGhostClient`).
- "Billed equals the last reading exactly when no restart occurred" is false in one direction: a
  restart of empty counters is invisible, and drops can cancel (`Counters.RestartCanHide`,
  `Counters.DecreasesCanCancel`). It holds exactly when the drops the panel read add up to nothing
  (`Counters.BilledIsLastReadingExactlyWhen`); which readings bill exactly what moved is
  `Counters.ReadingExactlyWhen`.
- The baseline of a device is kept per device, not per node; a device seen on two nodes can be billed
  for more than it moved (`Counters.TwoNodesOverbill`). Which readings overbill is decided exactly by
  `Counters.FairReadingExactlyWhen`, and by how much at most by `Counters.BilledAtMostMovedPlusExcess`.
- With no live configuration but older backups present, a rollback installs a stale backup; the exact
  condition is in `RemoteApply.OldOrNewExactlyWhen`. A restart command that fails leaves the new
  configuration without a rollback (`RemoteApply.CutScriptIsNotRolledBack`), and the exit code of the
  rollback does not tell whether anything was restored (`RemoteApply.RollbackRestoresExactlyWhen`).
- A failure that is not recorded, because its handler raises or the exception is none that it catches,
  lets two installs of one node run at once (`InstallJobs.TwoInstallsAtOnce`); a worker that dies
  blocks its node (`InstallJobs.DeadWorkerBlocksItsNode`).
- A title or server name of two lines passes the settings and node schemas and is printed as it is between
  quotes, so the Clash document does not read back; so with any control character in a printed text. The
  exact condition is `ClashDocument.DocumentReadsBackExactlyWhen`, an input
  `ClashDocument.TitleOfTwoLinesIsLost`.
- The check that an active user has a node never fires: a payload without any falls back to every online node
  before (`RequestEffects.PayloadRefusedExactlyWhen`).
- A node row without a short id is given one when a subscription is read, while its server still runs the
  configuration without (`Connection.DocumentAgreesWithServer`).
- Base32 decoding removes `=` before white space, so white space after the padding is refused
  (`Base32.SpaceAfterPadding`).
- A restart command that fails is retried at the next check without a cooldown
  (`Watchdog.FailedRestartIsRetried`).

Each failure of the control plane that is stated by its condition has an input in `Witnesses`.

## Model

| member | source | states |
|---|---|---|
| Runs.AgreementOverRuns | backend/app/services/config_apply.py:85-210 | Over every run of requests with arbitrary attempt outcomes, agreement (each online node with Xray runs what the current database renders for it, or its last attempt is recorded as failed) holds throughout if and only if every request in it is admissible |
| Runs.StepKeepsSyncExactly | backend/app/services/config_apply.py:85-210 | One request, committed or rolled back, keeps agreement if and only if no counted node outside its targets is disturbed, no successful push brings a node with clients online, and a rollback's attempts are harmless |
| Runs.ValidOverRuns | backend/app/api/entities.py:861-998 | Over every run row ids stay unique and stored block lists valid |
| RowOrder.AgreementInAnyOrder | backend/app/services/config_apply.py:85-210 | Over every admissible run, in whatever order each push reads users and devices, every online node with Xray and without a failure on record runs the current rendering up to the order of clients, rules and e-mails |
| RowOrder.RowOrderIsImmaterial | backend/app/services/xray_config.py:32-94 | Rows in another order make rendering fail alike, or give the same configuration but for the order of clients, rules and the e-mails of a rule |
| RowOrder.RequestInAnyOrder | backend/app/services/config_apply.py:156-240 | Servers that agree up to order still do after any request, with any attempt outcomes |
| Runs.TargetInSyncExactly | backend/app/services/config_apply.py:156-210 | A target of a push ends in agreement, except exactly when a successful push brings a node with clients online |
| Runs.FlipIsExact | backend/app/services/config_apply.py:187-188 | A successful apply to a node that was not online leaves it online, in agreement exactly when the node has no clients of its own |
| Runs.RollbackIsExact | backend/app/services/config_apply.py:256-278 | After a rollback the database is the old one, and agreement survives exactly when at every counted target the attempt did not start, failed leaving what was live, or applied a removal of devices that were not let in |
| Rollbacks.LiveKeptExactly | backend/app/api/entities.py:1561-1583 | On a counted target the server runs what it ran before exactly when the outcome of its attempt is harmless; an applied registration never is |
| Rollbacks.RemovalRenders | backend/app/api/entities.py:1561-1583 | Removing or resetting devices leaves the rendering of the user's nodes as it was exactly when no serving device of an active user goes |
| Rollbacks.RegistrationChangesRendering | backend/app/api/entities.py:1698-1764 | A registration changes the rendering of every node of the user |
| Runs.StepKeepsValid | backend/app/api/entities.py:861-998 | Requests keep row ids unique, node rows under their own id and stored block lists valid |
| Agreement.AffectedSetIsExact | backend/app/api/entities.py:896-998 | An online node outside the pushed set renders the same configuration before and after, if and only if the request does not disturb it |
| Agreement.OutsideTargetsUnchanged | backend/app/api/entities.py:861-998 | For undisturbed nodes outside the pushed set, node row and rendering are unchanged, failing renderings included |
| Agreement.UnforcedDeleteDisturbsNothing | backend/app/api/entities.py:968-982 | Deleting a node that is not in use disturbs no node |
| Agreement.KeptExactly | backend/app/api/entities.py:861-998 | Every user shows on an outside node as before exactly when the request does not disturb that node |
| Agreement.UpdateProfileKeepsExactly | backend/app/api/entities.py:555-566 | A profile update keeps an outside node's users exactly when no visible user with explicit links has the profile while its normalised block list changes |
| Agreement.BulkRemoveKeepsExactly | backend/app/api/entities.py:916-934 | Removing a node from users keeps an outside node's users exactly when no emptied explicit set falls back to it |
| Agreement.DetachKeepsUnlessFallback | backend/app/api/entities.py:223-273 | Detaching a node from a user and its profiles keeps another node's view of the user unless the user falls back to that node |
| Agreement.StatusKeepsExactly | backend/app/api/entities.py:1227-1246 | Enabling, disabling and traffic reset miss exactly the users that reach a node through the profile only |
| Access.ServersAdmitExactly | backend/app/services/config_apply.py:85-210 | Over every run, the own clients of an online server in agreement are exactly the entries of active devices with a HWID, of active users whose explicit links, or else whose profile, name the node |
| Access.DeviceAdmittedExactly | backend/app/services/xray_config.py:15-29 | Over every run, such a server has an entry under a device's name, then with the device's own key, exactly if the device is active with a HWID and its user active and allowed on the node |
| Access.RevokedIsNeverAdmitted | backend/app/services/xray_config.py:15-25 | Over every run, no such server has an entry under the name of a revoked device, of one without a HWID, or of one whose user is not active or not allowed on the node |
| Access.DeviceRefusedExactly | backend/app/services/xray_config.py:161-181 | Over every run, such a server refuses a device exactly the hosts at or under a blocked domain of its user's profile, and only if it lets the device in at all |
| Access.PushAdmitsExactly | backend/app/services/config_apply.py:156-210 | Whatever the servers ran before, one that took the push of a request lets in exactly the devices entitled by the rows that the request wrote |
| Access.SwitchedOffServesNobody | backend/app/api/entities.py:813-845 | A node with Xray that is disabled, put in maintenance or deleted, with the attempt applied, lets no device in |
| Access.RenderedOwnClients | backend/app/services/xray_config.py:97-109 | The own clients of a rendered configuration do not depend on what the server was taken over with |
| Witnesses.RemovalDisturbs | backend/app/api/entities.py:920-927 | A user whose only explicit node is taken away falls back to an outside node, whose rendering changes |
| Witnesses.DeletionDisturbs | backend/app/api/entities.py:983-988 | The same for a forced deletion |
| Witnesses.EnablingDisturbs | backend/app/api/entities.py:1227-1235 | Enabling a user without explicit nodes changes a node that is not pushed to |
| Witnesses.DisablingDisturbs | backend/app/api/entities.py:1238-1246 | The same for disabling |
| Witnesses.ResettingDisturbs | backend/app/api/entities.py:1271-1292 | The same for a traffic reset of a limited user |
| Witnesses.UpdateDisturbs | backend/app/api/entities.py:557-563 | A new block list changes an explicit node of a user of the profile, which is not pushed to |
| Witnesses.FlipHappens | backend/app/services/config_apply.py:187-188 | Applying to an offline node with a client ends agreement |
| Witnesses.GhostClientHappens | backend/app/api/entities.py:1742-1758 | A rolled-back registration with one server written leaves the device on it |
| Witnesses.StrandingHappens | backend/app/api/entities.py:880-892 | Taking a node out of a profile leaves it the primary of a user who can no longer use it |
| Rendering.RenderDeterminesParts | backend/app/services/xray_config.py:32-94 | Two databases render a node identically if and only if each user contributes the same clients and rules |
| Rendering.SamePartWhen | backend/app/services/xray_config.py:15-25 | A user's contribution is decided by visibility, serving devices and the normalised block list |
| Rendering.OwnerIsUnique | backend/app/services/xray_config.py:28-29 | No client or rule can belong to two users |
| XrayConfig.AkfaClientsMembers | backend/app/services/xray_config.py:15-37 | A client is rendered exactly for the active devices with a HWID of active users that may use the online node |
| XrayConfig.PairsMembers | backend/app/services/xray_config.py:15-25 | The collected pairs are exactly the active devices with a HWID and their active users, for an online node that the user may use |
| XrayConfig.NodeInRendering | backend/app/services/xray_config.py:32-94 | A rendering has the port, SNI, private key and short id of the node row, and its inbound tag or else the default one |
| XrayConfig.OwnerOfClient | backend/app/services/xray_config.py:15-37 | Every rendered client has a user and device it was rendered for |
| XrayConfig.RenderFailsExactlyWhen | backend/app/services/xray_config.py:112-142 | Rendering is refused exactly for a missing private key or an invalid block list of a visible user |
| XrayConfig.ActiveHwidDevicesForNode | backend/app/services/xray_config.py:15-25 | The nested loops compute the specified list of users and devices |
| XrayConfig.ClientsOfPairs | backend/app/services/xray_config.py:32-37 | The clients made from that list are those of the per-user specification |
| XrayConfig.ServerBlockedDomainRules | backend/app/services/xray_config.py:161-181 | The loop over users and matchers computes the specified rules, or fails at the same list |
| ConfigApply.SuccessByCounting | backend/app/services/config_apply.py:269-278 | The test by counting results passes if and only if every requested node exists and its attempt succeeded |
| ConfigApply.CountIsCardinality | backend/app/services/config_apply.py:269-278 | Over distinct results, the count of a status is the number of nodes with it |
| ConfigApply.SuccessIsDeployed | backend/app/services/config_apply.py:156-210 | A reported success means that the server runs what was rendered from the row of that moment, which is what the database renders for it unless the push brings it online |
| ConfigApply.AttemptedExactlyWhen | backend/app/services/config_apply.py:156-240 | An attempt succeeds exactly when it is applied at a node with Xray that is online or may be pushed to all the same and rendering works, is skipped exactly for the two conditions on the node, and leaves row and server in keeping with its result |
| ConfigApply.ProgressDone | backend/app/services/config_apply.py:85-131 | Attempts one node at a time, in any order, add up to the same final state |
| ControlPlane.Panel.ApplyOne | backend/app/services/config_apply.py:156-240 | Skips a node that is not online or has no Xray, records a failed rendering, and otherwise writes exactly the fields of the attempt's outcome |
| ControlPlane.Panel.ApplyToNodes | backend/app/services/config_apply.py:85-131 | In whatever order nodes come, each existing target is attempted once on the tables as they are, with one result for each |
| ControlPlane.Panel.ApplyForUser | backend/app/services/config_apply.py:256-278 | Reports success exactly when every target succeeded |
| ControlPlane.Panel.SetUserNodeAccess | backend/app/api/entities.py:167-178 | Rewrites links in sorted order and picks the primary node, for one user only |
| ControlPlane.Panel.RemoveNodeFromProfiles | backend/app/api/entities.py:223-236 | Drops or replaces the node in every profile |
| ControlPlane.Panel.ClearOrReplacePrimaryNodes | backend/app/api/entities.py:239-251 | Repairs every primary that was the node |
| ControlPlane.Panel.DetachNodeFromUsers | backend/app/api/entities.py:254-273 | Drops or replaces the node in every user's links |
| ControlPlane.Panel.ReplaceNode | backend/app/api/entities.py:937-964 | Refused for a missing, equal or deleted replacement; otherwise links, profile lists and primaries are rewritten, both nodes are pushed to and the change is committed whatever the servers answer, as `Requests.Step` says |
| ControlPlane.Panel.DeleteNode | backend/app/api/entities.py:968-998 | Refused while in use unless forced; detaches the node, pushes to it as disabled, then marks it deleted; a second delete changes nothing |
| ControlPlane.Panel.AddNodeToUsers | backend/app/api/entities.py:896-912 | Every targeted user gets the node added to its explicit or inherited set; only that node is pushed to |
| ControlPlane.Panel.RemoveNodeFromUsers | backend/app/api/entities.py:916-934 | Every targeted user loses the node from its explicit or inherited set, with a new primary if needed; only that node is pushed to |
| ControlPlane.Panel.AddNodeToProfile | backend/app/api/entities.py:862-876 | Appends the node once to the profile's list, refused for a deleted node; only that node is pushed to |
| ControlPlane.Panel.RemoveNodeFromProfile | backend/app/api/entities.py:880-892 | Removes every occurrence of the node from the profile's list; only that node is pushed to |
| ControlPlane.Panel.ChangeNodeStatus | backend/app/api/entities.py:813-858 | Disable and maintenance push to the node although it is not online, enable pushes to it as online; refused for a deleted node |
| ControlPlane.Panel.ApplyConfig | backend/app/api/entities.py:767-781 | Makes missing keys, pushes to the node whatever its status, commits, and answers 502 exactly when the attempt failed |
| ControlPlane.Panel.UpdateProfile | backend/app/api/entities.py:555-566 | Stores the normalised profile or refuses it; pushes to the nodes of the old and the new list, or to every node not deleted when both are empty |
| ControlPlane.Panel.CreateUser | backend/app/api/entities.py:1048-1127 | Refuses a taken name, bad limits or unknown nodes; otherwise adds the user with its links and primary and pushes to its effective nodes |
| ControlPlane.Panel.UpdateUser | backend/app/api/entities.py:1168-1198 | Refuses a taken name and a limit below the active devices; otherwise rewrites the user and pushes to its old and new effective nodes |
| ControlPlane.Panel.DeleteUser | backend/app/api/entities.py:1201-1224 | Marks the user deleted and pushes to its effective nodes; a second delete changes nothing |
| ControlPlane.Panel.ChangeUserStatus | backend/app/api/entities.py:1227-1246 | Writes the status and pushes to the explicit nodes only |
| ControlPlane.Panel.RemoveUserDevice | backend/app/api/entities.py:1323-1341 | Removes the row and restores it unless every node of the user took the change; a missing device changes nothing |
| ControlPlane.Panel.ResetUserDevices | backend/app/api/entities.py:1344-1371 | Removes all rows and restores them unless every node of the user took the change |
| ControlPlane.Panel.PushDevices | backend/app/api/entities.py:1561-1583 | Commits when every node of the user succeeded or there is none, and otherwise restores the tables |
| ControlPlane.Panel.Subscribe | backend/app/api/entities.py:1668-1764 | An active device of the same HWID is reused, a full user or one without nodes is refused, a revoked device of the HWID makes room; the new row is committed only when every node of the user took it |
| Devices.NewDeviceAllOrNothing | backend/app/api/entities.py:1698-1764 | A registration leaves the database untouched, or every node the user may use has received a configuration with the device |
| Devices.RemovedDeviceIsGoneEverywhere | backend/app/api/entities.py:1561-1583 | A committed removal or reset means that no node of the user runs a configuration with the device |
| Devices.RollbackLeavesGhostClient | backend/app/api/entities.py:1742-1758 | After a rolled-back registration a server admits the device, which has no row, exactly when its attempt applied the configuration or failed leaving one with the device |
| Devices.LimitsOverRuns | backend/app/models/__init__.py:223-224 | In every reachable state the places of active devices with a HWID in a user's list are no more than its limit, and no two devices of a user share a HWID hash |
| Devices.CountIsOfPlaces | backend/app/models/__init__.py:223-224 | The count that is compared with the limit is the number of those places |
| RequestEffects.RegistrationRefusedExactlyWhen | backend/app/api/entities.py:1668-1764 | A registration by a HWID that is not in use is refused exactly when as many devices are active as the limit allows or the user has no node; else the row of a revoked device of that HWID gives way to the new one, pushed to all nodes of the user; one by a HWID in use changes nothing |
| RequestEffects.DevicesLeft | backend/app/api/entities.py:1323-1371 | Removing a device takes its row alone, a reset every row, committed at once exactly when the user has no node |
| RequestEffects.CreationRefusedExactlyWhen | backend/app/api/entities.py:1065-1079 | A new user is refused exactly for a limit outside 1 to 100, a name that exists, or a primary node it is not given |
| RequestEffects.UpdateRefusedExactlyWhen | backend/app/api/entities.py:1168-1186 | An update is refused exactly for a bad limit, the name of another user, a limit below the number of active devices, or a primary node the user is not given, in this order |
| RequestEffects.PayloadRefusedExactlyWhen | backend/app/api/entities.py:1072-1079 | A payload gives the nodes it names, else those of its profile, else every online one to an active user; it is refused exactly for a primary node outside them, the check that an active user has any node never fires |
| RequestEffects.CreationWrites | backend/app/api/entities.py:1080-1099 | The new row has the fields of the payload, sorted links, the given primary or the first link, and no devices, and is pushed to the nodes it is given |
| RequestEffects.UpdateWrites | backend/app/api/entities.py:1187-1191 | The row gets the same from the payload and keeps its devices; pushed to the nodes before and after |
| RequestEffects.StatusIsWritten | backend/app/api/entities.py:1201-1246 | Enabling, disabling, deleting and a traffic reset write the status of that user only; deletion pushes to the effective nodes, the others to the explicit ones |
| RequestEffects.UnknownUserIsRefused | backend/app/api/entities.py:123-127 | A request about a user that does not exist is answered 404 |
| RequestEffects.NamesOverRuns | backend/app/api/entities.py:1065-1171 | In every reachable state no two users have the same name |
| NodeReferences.OldNodeIsUnreferenced | backend/app/api/entities.py:223-273 | After replace or delete, no link, profile list or primary names the old node |
| NodeReferences.DeletedNodeIsUnreachable | backend/app/api/entities.py:968-998 | A deleted node is in no user's effective nodes, whatever the servers answered |
| NodeReferences.PrimariesKnownExactly | backend/app/api/entities.py:555-566 | A request keeps every primary node absent or effective, except exactly when it takes a profile's node away from a user whose primary it is |
| NodeReferences.PrimariesOverRuns | backend/app/api/entities.py:861-998 | The same over every run without such a request |
| NodeReferences.ReplacementBecomesPrimaryExactly | backend/app/api/entities.py:254-273 | The new node becomes primary exactly for those linked to the old one, or with the old or new one as primary |
| NodeReferences.RemovalTakesEffectExactly | backend/app/api/entities.py:920-927 | A node leaves a user's effective nodes unless it was the only one and the profile offers it |
| NodeEffects.AdditionWrites | backend/app/api/entities.py:896-912 | Exactly the chosen users that could not use the node get it, besides the nodes they could use before; a known primary stays |
| NodeEffects.RemovalWrites | backend/app/api/entities.py:916-934 | Exactly the chosen users that could use the node keep their other nodes as links; a primary that goes is followed by the least link |
| NodeEffects.ProfileListWrites | backend/app/api/entities.py:862-892 | The profile's list gains or loses that node alone, and only that node is pushed to |
| NodeEffects.ReplacementWrites | backend/app/api/entities.py:937-964 | In every user row the new node takes the place of the old one among the links and becomes primary, or replaces the old primary; nothing else changes |
| NodeEffects.DetachedProfiles | backend/app/api/entities.py:223-236 | In a replacement or deletion exactly the profiles that list the node change, by that node and its replacement |
| NodeEffects.DeletionWrites | backend/app/api/entities.py:968-998 | Every link to the node goes, a user whose primary it was gets the least node left, and the row is pushed as disabled before it is marked deleted |
| NodeEffects.KeysAreFilled | backend/app/services/reality.py:36-42 | Complete keys stay; half a pair brings a new pair, a missing short id a new one |
| NodeEffects.NodeRowWrites | backend/app/api/entities.py:767-858 | A request about one node writes that row's status, keys or given fields and nothing else, and pushes to that node |
| NodeEffects.NodeRefusedExactlyWhen | backend/app/api/entities.py:813-998 | Which requests about nodes are refused with which code: a missing or deleted node, an unclear selection, an unfit replacement, a node in use |
| NodeEffects.ProfileUpdateWrites | backend/app/api/entities.py:555-566 | The profile is stored as sent but for cleaned domains, or refused for them; pushed to the nodes of both lists, or to every node not deleted when both are empty |
| Subscription.OrderedMeaning | backend/app/services/xray_config.py:337-345 | The list is a strictly sorted permutation of the available nodes with an available primary first |
| Subscription.ListedInOrder | backend/app/services/xray_config.py:337-345 | Of any two listed servers the later is not the primary, and unless the earlier is, they are in code-point order of location or name, then of id |
| Subscription.SortedIsUnique | backend/app/services/xray_config.py:337-345 | The sorted order is the only one, so the order of the query does not matter |
| Subscription.ListedExactlyWhenAdmitted | backend/app/services/subscriptions.py:42-51 | A server is in the subscription of a device exactly when its rendered client list has the device |
| Connection.DocumentAgreesWithRendering | backend/app/services/subscriptions.py:101-124 | Every entry of the document that a device reads has the port and SNI of the configuration rendered for that server, and the key and flow of a client in it under the device's name; the short ids agree exactly when the row has one |
| Connection.DocumentAgreesWithServer | backend/app/services/subscriptions.py:42-51 | Over every run, the same of what a server in agreement runs |
| ClientRouting.BlockingWins | backend/app/services/xray_config.py:348-375 | First-match evaluation of the client rules blocks exactly BitTorrent and the hosts at or under a blocked domain, whatever the direct list says |
| ClientRouting.RestGoesDirectExactlyWhen | backend/app/services/xray_config.py:145-158 | What is not refused goes direct exactly for a host of the profile's direct list, of the default list when that is empty, with the zone rules in RU mode, and never in full-tunnel mode; the rest goes through the proxy |
| ClientRouting.ServerBlocksTheSameHosts | backend/app/services/xray_config.py:161-181 | A rendered configuration refuses a device a host exactly when the device is active with a HWID, its user active and allowed on the node, and the host at or under a blocked domain of the profile |
| ClientRouting.RulesAreAboutSomething | backend/app/services/xray_config.py:161-181 | No server rule is rendered without a device or without a domain |
| ClientRouting.ClientRulesAreAboutSomething | backend/app/services/xray_config.py:145-158 | No client rule blocks an empty list of domains, and full-tunnel mode has no direct rule |
| DomainLists.MatcherIsExact | backend/app/services/domain_lists.py:33-34 | A matcher accepts exactly the domain and the names under it at a label boundary |
| DomainLists.NormalizedMeaning | backend/app/services/domain_lists.py:5-30 | Refused exactly when some value is neither blank nor a domain; otherwise each cleaned domain once, for any lower-casing |
| DomainLists.AcceptedExactlyWhen | backend/app/services/domain_lists.py:14-26 | A cleaned value is accepted exactly if it has a dot, none at its ends or next to another, and no white space, slash, backslash, colon or asterisk |
| DomainLists.CleaningMeaning | backend/app/services/domain_lists.py:11-11 | Cleaning takes all white space around a value and all dots behind it, and lowers what is left |
| DomainLists.NormalizeIdempotent | backend/app/services/domain_lists.py:5-30 | A stored list normalises to itself |
| DomainLists.NormalizeBlockedDomains | backend/app/services/domain_lists.py:5-30 | The loop with its seen set computes the specified list or the first error |
| Decimal.DeviceEmailInjective | backend/app/services/xray_config.py:28-29 | Two devices never share a statistics e-mail |
| ImportedMerge.MergeKeepsForeignDropsStale | backend/app/services/xray_config.py:97-109 | Foreign clients survive in order and number, stale own ones do not, and the own clients follow |
| ImportedMerge.OwnedServerHasNoOthers | backend/app/services/xray_config.py:97-99 | A server that AKFA owns has AKFA clients only, whatever baseline its row still has |
| ImportedMerge.RenderImportedIsFixpoint | backend/app/services/xray_config.py:97-109 | Taking the rendered list as the new baseline renders the same configuration, also for a node without a baseline |
| Counters.CounterDelta | backend/app/services/traffic.py:367-414 | The branches of the source compute the specified delta |
| Counters.NeverOverbilled | backend/app/services/traffic.py:367-414 | Over every interleaving of growth, restarts and collections, no more is billed than was moved, in each direction |
| Counters.BillNeverDecreases | backend/app/services/traffic.py:367-414 | The bill never goes down |
| Counters.WithoutRestartBilledIsLastReading | backend/app/services/traffic.py:367-414 | From a zero baseline and without a restart, the bill is the last reading |
| Counters.ReadingExactlyWhen | backend/app/services/traffic.py:367-414 | A reading is exact if and only if there was no restart since the previous one, or nothing moved, or the baseline was zero and the counter holds it all |
| Counters.SettledExactlyWhen | backend/app/services/traffic.py:367-414 | Over a run, the bill equals everything moved up to the last collection exactly when every collection did |
| Counters.RestartCanHide | backend/app/services/traffic.py:367-414 | A run with a restart after which the bill still equals the last reading |
| Counters.DecreasesCanCancel | backend/app/services/traffic.py:367-414 | A run with lost bytes after which the bill still equals the last reading |
| Counters.BilledIsLastReadingExactlyWhen | backend/app/services/traffic.py:367-414 | Over every run the bill equals the last reading exactly when the drops between baseline and reading, added over the collections, come to nothing in each direction |
| Counters.FairReadingExactlyWhen | backend/app/services/traffic.py:417-456 | A reading of a device on one of several nodes bills at most what moved there since that node's previous reading exactly when its counter restarted, or lies below the shared baseline, or the node's own previous reading does not exceed it |
| Counters.AllFairExactlyWhen | backend/app/services/traffic.py:417-456 | No reading of a journey overbills exactly when the excess stays zero in both directions |
| Counters.BilledAtMostMovedPlusExcess | backend/app/services/traffic.py:417-456 | Over every journey across nodes a device is billed at most for what it moved plus the excess of its readings |
| Counters.OneNodeNeverOverbilled | backend/app/services/traffic.py:417-456 | A device collected from one node only is never billed for more than it moved |
| Counters.TwoNodesOverbill | backend/app/services/traffic.py:424-434 | A device that alternates between two nodes can be billed for more than it moved |
| Traffic.ConservedOverRuns | backend/app/services/traffic.py:233-343 | At every moment of every run of collections and removals, each user's totals are the sum of rows and devices, of snapshots, and of up and down; each server's totals are the sum of its own snapshots |
| Traffic.BalancedFromZero | backend/app/services/traffic.py:233-343 | From tables in which nothing was counted, these balances hold at every moment of every run |
| Metering.RowsChargeAtMostMoved | backend/app/services/traffic.py:346-414 | Over every history in which each row reads the counter of its user on its node, what a user was charged through rows is at most what the user moved on those nodes, each counted once |
| Metering.UserChargedAtMostMoved | backend/app/services/traffic.py:233-343 | Over every such history a user's total exceeds what the user moved on the nodes of its rows by no more than what came through devices |
| Metering.HistoryIsFair | backend/app/services/traffic.py:346-414 | Whatever baseline a new row takes, charged and still to be charged never exceed what the counter counted, and the books balance |
| Metering.WithoutRestartNothingIsLost | backend/app/services/traffic.py:367-414 | From any moment at which a counter shows at least the last reading, over every history in which the node does not restart, what the row is charged and what is still unread grow by exactly what the counter counts |
| Metering.ChargedIsMovedBetweenReadings | backend/app/services/traffic.py:367-414 | Between two readings without a restart of the node, a row is charged exactly what the counter counted |
| Metering.DueRowIsAtTheCounter | backend/app/services/traffic.py:295-316 | After every collection in which a user is due, the user's row for the node is at what the counter shows |
| Traffic.CollectionConserves | backend/app/services/traffic.py:259-317 | One collection keeps the books of the users balanced |
| Traffic.CollectionKeepsServers | backend/app/services/traffic.py:259-317 | One collection leaves the books of the servers alone |
| Collection.ReportedDevicesAreRead | backend/app/services/traffic.py:259-282 | After one collection every device whose e-mail is in the statistics is at its reading and has grown by the delta, and every other device is as it was |
| Collection.DueUserIsBilled | backend/app/services/traffic.py:295-316 | An active or limited user with its name and no device in the statistics has its row for the node at the reading, the old one or a new one with the legacy baseline if it is the first, and is charged what the row is; limited if that reaches the limit |
| Collection.NobodyElseIsBilled | backend/app/services/traffic.py:259-317 | Everybody else's rows stay; an account with devices in the statistics grows by what they were charged, and any other account is untouched |
| Collection.StrangersKeepRows | backend/app/services/traffic.py:295-316 | Rows of users without an account stay |
| Collection.SnapshotsAreOfTheNode | backend/app/services/traffic.py:273-281 | A collection adds snapshots of users on the node collected from, and removes none |
| Collection.ServerIsRead | backend/app/services/server_metrics.py:265-308 | A reading of a node's own counter brings that server to it, grown by the delta, with a snapshot unless nothing moved |
| Collection.RemovedDeviceIsRemembered | backend/app/api/entities.py:1561-1583 | A removed device is out of the table, and nothing else changes |
| Traffic.InboundConserves | backend/app/services/server_metrics.py:265-308 | A server reading keeps both sets of books balanced |
| Traffic.AggregateCountsUsersAgain | backend/app/services/server_metrics.py:322-333 | The aggregate of a node over a period, cut by the time of each snapshot, is what its own counters grew by since the last moment before the period, plus every byte of its users once more |
| Traffic.Ledger.ApplyUserNodeRawCounters | backend/app/services/traffic.py:367-414 | Row, user totals, last raw values, limit status and snapshot after one reading, keeping the books balanced |
| Traffic.Ledger.ApplyDeviceRawCounters | backend/app/services/traffic.py:417-456 | The same for a device reading |
| Traffic.Ledger.GetUserNodeTraffic | backend/app/services/traffic.py:346-364 | Finds the row of user and node, or adds it with the legacy baseline if it is the user's first |
| Traffic.Ledger.ApplyNodeRawCounters | backend/app/services/server_metrics.py:265-308 | Node totals, and a snapshot when something moved |
| Traffic.Ledger.RemoveDeviceRow | backend/app/api/entities.py:1561-1583 | Removing a device takes its row away, leaves the user's totals, and keeps the books balanced |
| Traffic.Ledger.ApplyXrayStats | backend/app/services/traffic.py:233-343 | Devices first, then eligible users not billed through a device, as specified, keeping the books balanced |
| InstallJobs.InstallsExcludeEachOther | backend/app/services/node_action_jobs.py:72-175 | Over every interleaving in which every failure is recorded, a node has at most one active job and the running map names it |
| InstallJobs.TwoActiveNeedAnUnrecordedFailure | backend/app/services/node_action_jobs.py:151-175 | Over every interleaving, two active jobs of a node mean that the handler of one of them raised, or that an exception it does not catch passed it by |
| InstallJobs.StartIsExclusiveExactly | backend/app/services/node_action_jobs.py:72-92 | A start request keeps exclusion unless it opens a job beside an abandoned one |
| InstallJobs.RaisingHandlerBreaksExclusion | backend/app/services/node_action_jobs.py:151-175 | From any state with a running handler, its raising and a later start give two active jobs |
| InstallJobs.TwoInstallsAtOnce | backend/app/services/node_action_jobs.py:151-175 | A run of the code with two active jobs on one node |
| InstallJobs.StatusMovesForward | backend/app/services/node_action_jobs.py:100-175 | One step keeps a status or moves it pending, running, success or failed; the log only grows |
| InstallJobs.StatusTellsTheEnd | backend/app/services/node_action_jobs.py:100-169 | Over every interleaving, a job reads success exactly if its installation ended well, failed exactly if a failure was recorded, and running exactly if it was marked and neither happened |
| InstallJobs.EndIsInTheJob | backend/app/services/node_action_jobs.py:107-169 | It then has the row, the reason or both, as the event that ended it brought them, and no other |
| InstallJobs.WorkersKeepTheOrder | backend/app/services/node_action_jobs.py:100-175 | In any interleaving the steps of a job are its opening and the program of its worker, one after the other |
| InstallJobs.LogHoldsItsEntries | backend/app/services/node_action_jobs.py:178-189 | The log of a job holds the entries of its own log events, in order |
| InstallJobs.StepIsLastTold | backend/app/services/node_action_jobs.py:178-213 | The step of a job is the one that its last event to name one named |
| InstallJobs.FinishedForGood | backend/app/services/node_action_jobs.py:178-213 | A finished job never changes again |
| InstallJobs.CleanupEvictsNoOther | backend/app/services/node_action_jobs.py:170-175 | A late worker's cleanup leaves every other registered job registered |
| InstallJobs.NodeIsFreeAfterCleanup | backend/app/services/node_action_jobs.py:72-92 | After the cleanup of an ended job the node accepts a new one exactly when no newer job is active |
| InstallJobs.DeadWorkerBlocksItsNode | backend/app/services/node_action_jobs.py:100-106 | A worker that stops early keeps its job active, and every later start on the node returns that job |
| InstallJobs.Jobs.StartInstallJob | backend/app/services/node_action_jobs.py:72-92 | Returns the active job of the node or opens and registers the new one |
| InstallJobs.Jobs.UpdateJob | backend/app/services/node_action_jobs.py:192-213 | Changes the fields given of a known job only; other jobs and the running map stay, and the map keeps naming known jobs of their node |
| InstallJobs.Jobs.AppendLog | backend/app/services/node_action_jobs.py:178-189 | Adds an entry to the log of a known job and takes its step; no other job and no map entry changes |
| InstallJobs.Jobs.Release | backend/app/services/node_action_jobs.py:172-175 | Afterwards the map does not name this job for its node, and every entry that names another job is kept |
| RemoteApply.OldOrNewExactlyWhen | backend/app/services/ssh_installer.py:174-217 | Every world leaves the old or the new configuration live, if and only if there was a live one, or no backup, or the newest backup is the new text, or the validator refuses it |
| RemoteApply.SwitchesOnlyWhenVetted | backend/app/services/ssh_installer.py:199-204 | At every moment before a rollback the live file changes only from old to new, after validation of that temporary file and after the backup |
| RemoteApply.OkMeansServing | backend/app/services/ssh_installer.py:207-217 | Success means new text live, vetted, old one backed up, and the service seen active on the new text |
| RemoteApply.CommandsAreInOrder | backend/app/services/ssh_installer.py:196-213 | In every world an apply issues the eleven commands in their order up to the one that raised, all of them if none did, and then a rollback unless the service was seen active |
| RemoteApply.CutExactlyWhen | backend/app/services/ssh_installer.py:291-351 | The script is cut at the first reply that is missing, a timeout's or a held lock's, or the failure of a command other than the two queries |
| RemoteApply.OkMeansPlaced | backend/app/services/ssh_installer.py:200-202 | After a success the live file has mode 644, and root owns it unless the change of owner failed unnoticed |
| RemoteApply.CutScriptIsNotRolledBack | backend/app/services/ssh_installer.py:214-216 | A script cut by an exception leaves the old text before the copy and the new one after it |
| RemoteApply.RollbackExactlyWhen | backend/app/services/ssh_installer.py:208-213 | A rollback is issued exactly when every command went through and the service was not seen active |
| RemoteApply.RollbackRestoresExactlyWhen | backend/app/services/ssh_installer.py:190-194 | With an old configuration, the rollback restores it exactly when its copy was made; with its restart the service runs on it |
| RemoteApply.StaleBackupRestored | backend/app/services/ssh_installer.py:190-194 | Without a live configuration, an older backup becomes live |
| RemoteApply.LogsNameEveryCommand | backend/app/services/ssh_installer.py:291-347 | The log names exactly the commands issued, in order, whatever cut the script |
| RemoteApply.LogsTellEveryCode | backend/app/services/ssh_installer.py:335-348 | The log has the exit code of every command that returned one, in order, marked as an error unless it is zero |
| RemoteApply.Installer.Exec | backend/app/services/ssh_installer.py:291-351 | One command: its effect, its log entries, and when it raises |
| RemoteApply.Installer.ApplyConfig | backend/app/services/ssh_installer.py:174-217 | The script as written reaches the specified host, trace, log and result |
| Yaml.RoundTripExactlyWhen | backend/app/services/subscriptions.py:137-176 | Reading a printed tree gives the tree back if and only if no text of it holds a control character (a line break is one), and it has no empty mapping or list, no None, no infinity, no key that resolves to something else, and only scalars or scalar-first mappings as list items |
| Yaml.PrintedTreeReads | backend/app/services/subscriptions.py:137-176 | A printed tree, faithful or not, is read behind its comment lines as the tree its text denotes, exactly when neither they nor a printed text hold a control character |
| Yaml.ReadsClean | backend/app/services/subscriptions.py:165-176 | Whatever is printed, no text that is read back holds a control character |
| Yaml.ScalarReadsBack | backend/app/services/subscriptions.py:165-176 | A printed scalar is read as that scalar, None as empty text and an infinity as a word, and is never taken for a key or an item |
| ClashDocument.DocumentReadsBackExactlyWhen | backend/app/services/subscriptions.py:101-134 | A printed Clash document reads back as its tree, behind the notice, if and only if no line of the notice, title, uuid, server name, host, SNI, fingerprint or key holds a control character |
| ClashReading.ReaderFindsServers | backend/app/services/subscriptions.py:101-134 | In a clean document a reader finds under their keys, for the i-th available server, its name, host, port, uuid, SNI, fingerprint, public key and short id, one entry for each server; one group with all names in order, and one rule that leads to it |
| ClashDocument.TitleOfTwoLinesIsLost | backend/app/services/subscription_settings.py:186-190 | Every title with a line break gives a document that does not read back |
| ClashDocument.EveryServerHasKeys | backend/app/services/reality.py:36-42 | Every listed server has a private key, a public key and a short id |
| ClashDocument.SubscriptionNodes | backend/app/services/subscriptions.py:42-51 | Refuses an empty list, and otherwise gives every node its keys |
| Yaml.RenderYaml | backend/app/services/subscriptions.py:137-162 | The recursive printer with its loops computes the specified text, and raises exactly on an empty mapping in a list it reaches |
| ClashDocument.ClashYaml | backend/app/services/subscriptions.py:101-134 | Refused without a server; otherwise the loop over nodes and the printer give the specified document under the notice |
| Base32.RoundTrip | akfa-docs-platform/lib/totp.ts:41-65 | Decoding undoes encoding for every byte string, in any letter case, ligatures included, with white space anywhere and any number of trailing equals signs |
| Base32.DecodesInAnyCase | akfa-docs-platform/lib/totp.ts:51-65 | An encoding with any of its letters small, with blanks, tabs and line ends anywhere and any number of trailing equals signs decodes to its bytes |
| Base32.EncodesTheNumber | akfa-docs-platform/lib/totp.ts:41-49 | An encoding is the number that the bytes spell to base 256, written to base 32 with the digit values of RFC 4648, its last letter filled up with zero bits |
| Base32.SpaceAfterPadding | akfa-docs-platform/lib/totp.ts:52-52 | White space after the padding is refused |
| Base32.CanonicalExactlyWhen | akfa-docs-platform/lib/totp.ts:51-65 | A cleaned secret is the encoding of its bytes exactly when the dropped bits are fewer than five and all zero |
| Base32.EncodedSpells | akfa-docs-platform/lib/totp.ts:41-49 | An encoding is already in clean form, without white space or padding |
| Base32.EncodedInjective | akfa-docs-platform/lib/totp.ts:41-49 | Different secrets have different encodings |
| Base32.Encode | akfa-docs-platform/lib/totp.ts:41-49 | The two loops compute the specified encoding |
| Base32.Decode | akfa-docs-platform/lib/totp.ts:51-65 | The two loops compute the specified bytes, or refuse an unknown character |
| Base32.IndexOfAbsent | akfa-docs-platform/lib/totp.ts:55-56 | A character is refused exactly when the alphabet lacks it |
| Base32.CodeIsSixDigits | akfa-docs-platform/lib/totp.ts:32-38 | A code has six digits that spell the low 31 bits of the chosen digest bytes modulo a million |
| RateLimit.AtMostLimitInAnyWindow | backend/app/core/security.py:95-102 | Over every run with a clock that does not go back, no window holds more accepted attempts on a key than the limit |
| RateLimit.ListIsCurrentWindow | backend/app/core/security.py:95-102 | After a call the list is exactly the accepted attempts of the current window |
| RateLimit.AcceptedExactlyWhen | backend/app/core/security.py:99-102 | A call is accepted exactly when fewer than the limit lie in the window ending now; a refusal leaves a list of exactly the limit |
| RateLimit.AnswerIsAdmission | backend/app/core/security.py:95-102 | The answer on a key does not depend on calls on other keys |
| RateLimit.FollowIsRun | backend/app/core/security.py:95-102 | The list of a key is what its own calls made of it |
| RateLimit.Limiter.CheckRateLimit | backend/app/core/security.py:95-102 | Pruning, storing the fresh list and appending to it through the shared reference change this key only |
| Watchdog.IssuedExactlyWhen | scripts/backend-watchdog.sh:86-119 | A restart is issued exactly at a check that ends a streak of the threshold and finds the last completed restart a cooldown ago |
| Watchdog.FailCountIsStreak | scripts/backend-watchdog.sh:87-100 | The stored count is the length of the current streak since the last healthy check or completed restart |
| Watchdog.LastRestartIsCompleted | scripts/backend-watchdog.sh:108-118 | The stored time is that of the last completed restart, or zero |
| Watchdog.CompletedRestartsApart | scripts/backend-watchdog.sh:108-118 | Any two completed restarts are a cooldown apart |
| Watchdog.PermanentFailureRestarts | scripts/backend-watchdog.sh:98-119 | Under permanent failure a restart is issued no later than the first check that meets both conditions |
| Watchdog.FailedRestartIsRetried | scripts/backend-watchdog.sh:115-118 | After a restart command that failed, the next unhealthy check issues another without a cooldown |
| Watchdog.HealthyCheckPutsOff | scripts/backend-watchdog.sh:87-95 | No restart within a threshold of checks after a healthy one |
| Watchdog.Files.RunCheck | scripts/backend-watchdog.sh:86-119 | One invocation reads and rewrites the state files as specified |

## Left out

- Runs.AgreementOverRuns: a server whose last attempt failed may run anything, so nothing is claimed for it until an attempt succeeds; ids of new devices are new and HWID digests and generated keys are not empty.
- RequestEffects.CreationRefusedExactlyWhen: row ids are positive, so a node or profile id of zero in a payload, which the source takes for none, is not told apart.
- Metering.WithoutRestartNothingIsLost: every device has an owner among the accounts, as the foreign key demands.
- Counters.FairReadingExactlyWhen: whether a counter restarted since a node's previous reading is known to the environment only, the panel keeps no reading per node.
- Traffic.AggregateCountsUsersAgain: for collection times that never go back, and periods that begin within the run.
- Metering.RowsChargeAtMostMoved: a history begins with no row; user names are those of the accounts at each collection.
- RateLimit.ListIsCurrentWindow: for a window of positive length, as the source's is; with none, an accepted attempt is outside its own window.
- Watchdog.CompletedRestartsApart: for a cooldown that is not negative.
- RemoteApply.Installer.ApplyConfig: a copy replaces its target in one piece, nobody else writes to the host meanwhile, and backups of the same second under the same name are not distinguished.
- Yaml.RoundTripExactlyWhen: for keys that need no quotes (no colon, number sign or leading indicator); the reader refuses a quoted scalar that goes on in the next line, where YAML would fold it; Python's `str` of a float and of a nested value are parameters, the latter escaping control characters.
- Devices.LimitsOverRuns: one request is atomic; two registrations that interleave across the pushes are not modelled, nor the answer to a request that loses the race for a HWID.
- `install`, `verify_node` and the read-only checks of the installer: the same script after package installation whose effects lie outside the repository.
- The effect of an install job on the database and the expiry scheduler: they change rows without a push.
- `import_existing_xray`, `update_user_device`, the import of users, backup restore and the regeneration of UUIDs and links: further requests that rewrite rows and push to nodes; the creation and deletion of profiles and departments in no use.
- `UpdateNode` and `ResetTraffic` are requests of the specification but not methods of `ControlPlane.Panel`.
- The parts of a configuration that are the same for every node (log, API, statistics, policy, outbounds), the sing-box document and the share links.
- Regular expressions are syntax trees with a meaning; their textual form and `re.escape` are not modelled.
- The order of rows without ORDER BY matters to rendering only through `RowOrder`; elsewhere users are in table order, and nodes are pushed in an arbitrary one.
- Counts of changed rows, messages, audit entries, headers and idempotency keys of the responses.
- Whether a subscription is past its expiry or traffic limit is one boolean of the registration request; device and user ids are fresh, and a unique-key violation is the refusal 409.
- The baselines that a traffic reset sets to zero, online times, and the parsing of counter output; a device has no status other than active or revoked.
- Cryptography, sessions, SSH host keys, uploads, the web front ends and article editing.
