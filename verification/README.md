# Raven: models and proofs

A Dafny model of the parts of the Raven TAK server that carry state across calls, processes or
runs, with proofs of what they promise. `dafny verify dfyconfig.toml` checks everything.

| files | what they model |
|---|---|
| `Canvas`, `PolicyGraph`, `Policy`, `Partners` | the federation policy as a graph of nodes, rules and canvas items; adding, updating and removing partners; listing partners and sorting live connections to them |
| `PolicyProofs`, `PolicyTheorems`, `PolicyFields`, `PolicyIds` | what edits leave alone, what undoes what, runs of edits, that every requested field arrives, and whether the partner is found again |
| `PolicyApply` | bringing a policy into force on a hub whose every call may fail, and may change the hub even when it fails |
| `EudHandler`, `Supersede`, `RevocationKick` | one device connection as a class, and two protocols between handler processes that only talk through broker queues |
| `IndexText`, `RevocationIndex` | the certificate index: serials, printing and reading, revoking, the cache |
| `OfflineChat`, `OfflineRuns`, `OfflineSolo`, `OfflinePurges`, `ChatRouting` | the offline chat queue as a table with its operations, as interleaved processes with crashes, the two tied together, what purging in batches takes while the retention is set again, and who is addressed compared with who is routed to |
| `Retention`, `RetentionCot` | batched deletes, ageing by untrusted device clocks, and the CoT purge against the foreign keys |
| `Metrics`, `MetricsRuns` | shared counters, the flusher, and services counting and flushing at once |
| `MissionUpsert`, `MissionRuns` | adding a map item to a mission by its two paths, and many calls at once |
| `DeviceProfiles` | device profile precedence, by sorting and folding, and the file limits |
| `Wrappers`, `Sets`, `Sorting`, `Text` | shared: options and results, set sizes, sorting, and strings |

Operations the server performs by changing something are methods, of a class where the server has an
object or a table. Each is proved to do what a specification function says (`After…`), and the
results are lemmas about those functions. The protocols between processes are state machines: a
`Step` datatype, what enables a step, what it does, and lemmas about every run. Time is an integer,
the database is finite maps and sequences with a step per commit, and failures are parameters that
may be anything.

Some promises are not kept by the code in every case. For those the model keeps the code, gives a run
in which the promise fails and states when it holds:

* Two connections of a device that both bind their control queue before either announces itself make
  each other step aside, and nobody consumes the device's queues (`OverlapLeavesNobody`). A connection
  steps aside exactly when another one announces itself after it bound (`SteppedAsideIff`).
* The bind that should catch a revocation kick is only sent when the index is checked. If the broker
  applies it after both the check and the kick, the connection stays up (`LateBindingMissesKick`).
  `ClosedIffHit` says exactly when it is closed.
* Two overlapping connections of a device can both send a stored chat message, the second after it
  was stamped delivered (`OverlapSendsTwice`). A stamped row is sent exactly when somebody else stamped
  it after this connection fetched its list (`SendsStampedRowIff`); a connection that is the only one
  of its device, with the settling job kept away, never does (`UndisturbedNeverResends`).
* A purge of the chat queue reads the retention once and then deletes in batches. If an administrator
  raises or lifts the retention meanwhile, the next batch still takes rows that would be delivered again
  (`RaiseLosesPending`); it takes one exactly if the retention now exceeds the one the purge read by as
  much as the row was overdue (`BatchTakesPendingIff`), and none if nobody raises or lifts it from the
  purge's start to the batch (`OnlyRefusedRowsGo`).
* A team message whose only `<dest>` is a mission is queued for the team but routed to nobody on it
  (`MissionChatReachesNobody`). `PickedIsReachedIff` gives the condition.
* A counter slot that passes 2^64 wraps, and the next flush records less than the table holds
  (`WrapBreaksTheBalance`). The balance holds exactly in the runs without a flush that saw a counter
  below what was flushed of it (`BalancedIff`).
* Two upserts that both look for the change record before either writes it leave two
  (`OverlapRecordsTwice`). There is one exactly in the runs where no call writes for an item between
  another call's look that found none and that call's write (`OneAddEachIff`).
* A connection that a newer one has announced itself over still unbinds the shared queues when it
  closes, exactly if it has not yet received the announcement (`OldCloseTakesQueuesIff`).
* An update of a partner that is only an outgoing node without a name returns an id that finds nothing;
  every other update returns one that finds the partner (`UpdateFindsPartnerAgain`).

The documentation of `upsert_mission_uid_and_change` says there is exactly one change row per mission
and item; the code keeps one `ADD_CONTENT` row and leaves removals beside it, and that is what is
proved. The message table's documentation speaks of one row per offline recipient; the code queues for
connected ones too.

## Model

| member | source | states |
|---|---|---|
| Canvas.FewBlockedCells | raven/fedhub_partners.py:757-775 | a set of taken positions blocks at most four grid cells each, in any part of the grid |
| Canvas.FindFreeCell | raven/fedhub_partners.py:757-775 | the unbounded search stops at an index of at most four times the taken positions, at that cell of the 220 by 150 grid from (120, 90); it is clear of every one by 170 or by 80, and every earlier cell is blocked |
| Canvas.AddedItemIsClear | raven/fedhub_partners.py:757-775 | the new item has the node's id and a place at least 170 or 80 from every placed one; a list gets it at the end, a dict under the id, and every other item stays |
| Canvas.DropUndoesAdd | raven/fedhub_partners.py:757-788 | removing a node's canvas item after adding it is as if it was never added, for lists, dicts and a missing canvas |
| PolicyEdits.Policy.AddViewNode | raven/fedhub_partners.py:757-775 | the canvas gets the new item at the first free cell and keeps every other item, in place and in order |
| PolicyEdits.Policy.RemoveViewNodes | raven/fedhub_partners.py:778-788 | exactly the items that name one of the ids, by key or by id, go |
| PolicyEdits.Policy.SetRule | raven/fedhub_partners.py:795-812 | the loop keeps the first rule between the two nodes with the new filter, drops its duplicates and appends a named rule if there was none |
| PolicyEdits.Policy.EnsureOwnNode | raven/fedhub_partners.py:856-869 | the in-place edit is the specified one, and the flag says whether anything changed, which is exactly when no own node was enabled |
| PolicyGraph.EnsuredOwn | raven/fedhub_partners.py:856-869 | afterwards this hub has an own node and an enabled one, whether it was there, disabled or missing |
| PolicyFields.EnsureMakesOwnNode | raven/fedhub_partners.py:856-869 | with an enabled own node nothing changes, else the first own node is switched on, else an enabled one named after the nickname is made, and all other entities stay |
| PolicyEdits.AddPartner | raven/fedhub_partners.py:883-904 | the edit on a copy is the specified one and the caller's policy is untouched |
| PolicyEdits.UpdatePartner | raven/fedhub_partners.py:920-991 | the edit on a copy is the specified one, error cases included |
| PolicyEdits.RemovePartner | raven/fedhub_partners.py:994-1008 | the edit on a copy is the specified one; an unknown partner is refused |
| PolicyTheorems.SetRulePairs | raven/fedhub_partners.py:795-812 | after set_rule exactly one rule runs between the two nodes, it has the filter and the first old rule's id, and every other pair keeps its rules |
| PolicyTheorems.AddSetsOneRuleEachWay | raven/fedhub_partners.py:883-904 | adding a partner leaves exactly one rule each way between this hub and each new node |
| PolicyFields.AddMakesRequestedNodes | raven/fedhub_partners.py:815-904 | an add makes an enabled CA node with the CA's uid and the requested name, interconnection, kind and expiry, and exactly if we dial an enabled outgoing node with the requested host, port, name and kind, linked to the CA |
| PolicyFields.AddMakesRequestedRules | raven/fedhub_partners.py:795-904 | the one rule each way between this hub and each new node is named after the two and has the requested filter, or lets all groups through |
| PolicyTheorems.UpdateKeepsOneRule | raven/fedhub_partners.py:920-991 | an update keeps the policy well formed and leaves exactly one rule for each node and direction it sets: with the requested filter, or for a node it makes, without one, the filter the CA node's rule had before (all groups if none); a direction it does not set keeps its filters |
| PolicyFields.MadeNodeTakesCaFilters | raven/fedhub_partners.py:941-952 | the rules of a node an update makes have the requested filters, else those of the CA node's first rule that way, else let all groups through |
| PolicyTheorems.EditsKeepWellFormed | raven/fedhub_partners.py:795-1008 | any run of adds, updates and removes, refused ones included, keeps entity ids distinct and every rule endpoint an entity |
| PolicyTheorems.RemoveUndoesAdd | raven/fedhub_partners.py:883-1008 | removing a fresh partner right after adding it gives back entities, rules and canvas, in order, for both dial directions |
| PolicyTheorems.RemoveUndoesAddExactly | raven/fedhub_partners.py:883-1008 | with the own node enabled before, that is the original policy itself |
| PolicyTheorems.SwitchingBackUndoesDialling | raven/fedhub_partners.py:920-991 | making a partner dialled and then not dialled again restores the policy |
| PolicyProofs.AddChangesOnlyTheNewNodes | raven/fedhub_partners.py:883-904 | without the new nodes, the policy after an add is the policy before it |
| PolicyProofs.UpdateChangesOnlyThePartner | raven/fedhub_partners.py:920-991 | without the partner's nodes, the policy after an update is the policy before it |
| PolicyProofs.RemoveChangesOnlyThePartner | raven/fedhub_partners.py:994-1008 | removing a partner takes its nodes with their rules and canvas items away, and nothing else |
| PolicyFields.RemoveTakesExactly | raven/fedhub_partners.py:994-1008 | exactly the partner's outgoing node and every CA node with its uid go, with every rule that starts or ends at one of them |
| PolicyFields.UpdateSetsRequestedFields | raven/fedhub_partners.py:920-991 | against the policy before: the CA node and a staying outgoing node have each field the request gives and keep the rest, one that is to go is gone, and one that is made has the requested address, the requested kind or its CA's, and the link to its CA |
| PolicyFields.UpdatedCaNode | raven/fedhub_partners.py:954-984 | that field by field for the CA node: name, switch, interconnection and kind as requested or as before, the rest as before |
| PolicyFields.UpdatedOutgoingNode | raven/fedhub_partners.py:954-984 | and for an outgoing node that stays, with its address |
| PolicyFields.UpdateMakesNode | raven/fedhub_partners.py:941-984 | and for one that is made |
| PolicyFields.KindOfOne | raven/fedhub_partners.py:488-493 | without a requested kind that is the one noted in its CA node, if it is a known one, else "other" |
| PolicyIds.UpdateFindsPartnerAgain | raven/fedhub_partners.py:985-991 | the id an update returns is the one it was given and finds the partner with its nodes, except for a lone outgoing node without a name, for which it finds nothing |
| PolicyFields.RenameKeepsRuleNames | raven/fedhub_partners.py:907-917 | a rule named after its nodes is still named after them once one is renamed |
| PolicyFields.RenameRebuildsIff | raven/fedhub_partners.py:907-917 | renaming a node rebuilds the names of exactly those of its rules that have none or are named after their two nodes; a name of its own stays |
| Partners.ListPartners | raven/fedhub_partners.py:435-463 | the two loops with their shared dict give the specified entries |
| Partners.PartnersAreAPartition | raven/fedhub_partners.py:435-463 | every outgoing node is in as many entries as it occurs, every foreign CA uid names exactly one, and each CA entry has that CA's first node and first linked outgoing node |
| Partners.FindByUid | raven/fedhub_partners.py:466-470 | looking a foreign CA's uid up finds that CA's entry, whatever other nodes are called |
| Partners.AttributeConnections | raven/fedhub_partners.py:516-541 | each list holds the connections that belong there, in order |
| Partners.NothingLostOrDuplicated | raven/fedhub_partners.py:516-541 | the per-partner, bridge and rest lists together hold every connection exactly once |
| Partners.ConnectionGoesTo | raven/fedhub_partners.py:504-541 | a connection goes to the first partner whose outgoing node it belongs to, and only without one to the first whose CA it presents |
| Partners.DialledByIff | raven/fedhub_partners.py:504-513 | it belongs to an outgoing node exactly if its id is the node's name or that followed by a dash |
| Partners.StrayGoesTo | raven/fedhub_partners.py:537-540 | a connection of no partner goes to the bridge exactly if it belongs to it and presents this hub's CA, if that is known, and to the rest otherwise |
| PolicyApply.Attempt | raven/fedhub_partners.py:1391-1419 | save, activate and confirm are called in turn, no further than the first that fails, and succeed exactly if none does and what is read back is enforced |
| PolicyApply.ApplyPolicy | raven/fedhub_partners.py:1391-1450 | for every schedule of failures, which calls are made: those of the attempt and then, if it failed and there is a previous policy, its save, activation and reading back, each cut off after the first that fails; it returns exactly if the re-read policy has the new name and ids and the own node; undoing is safe exactly if the previous policy was read back or, without one, the save failed |
| PolicyApply.UniquePolicyName | raven/fedhub_partners.py:1498-1505 | the search ends with a free name: the base, or the first free number, which is at most one more than the names taken |
| EudHandlers.EudHandler.CloseConnection | raven/eud_handler/EudHandler.py:339-425 | the handler is shut down; only the first close unbinds the shared queues, and never that of a handler that has stepped aside, whose socket stays as it is; closing again changes nothing |
| EudHandlers.EudHandler.OnControlMessage | raven/eud_handler/EudHandler.py:624-695 | the handler steps aside exactly for an announcement by another connection or a disconnect request for its device, shuts down exactly for a kick of its own serial, and keeps everything else |
| EudHandlers.EudHandler.BindCertControlQueue | raven/eud_handler/EudHandler.py:537-575 | it binds exactly when the flag goes from unset to set, and then shuts down if the serial is revoked |
| EudHandlers.EudHandler.OnChannelOpen | raven/eud_handler/EudHandler.py:482-524 | afterwards the queue is bound if it was or the serial is known, and a handler that had bound it is not checked again |
| EudHandlers.EudHandler.Setup | raven/eud_handler/EudHandlerSSL.py:26-76 | the binding is requested unless the certificate is revoked, which shuts the handler down |
| EudHandlers.LifeGoesForward | raven/eud_handler/EudHandler.py:339-695 | over any life of a handler, stepping aside, shutting down and having bound the cert queue are never undone |
| EudHandlers.QueuesTakenAtMostOnce | raven/eud_handler/EudHandler.py:339-425 | over any life the shared queues are unbound at most once, only as it shuts down, and never once it has stepped aside |
| EudHandlers.CertBoundAtMostOnce | raven/eud_handler/EudHandler.py:526-575 | over any life the cert queue is bound at most once |
| EudHandlers.StopsConsumingIffHit | raven/eud_handler/EudHandler.py:624-695 | over any life a handler steps aside and stops consuming exactly if it heard a hit |
| Supersession.SteppedAsideIff | raven/eud_handler/EudHandler.py:1058-1083 | in every interleaving a drained open connection has stepped aside exactly if another announced itself, or a disconnect was requested, after it bound |
| Supersession.AtMostOneConsumer | raven/eud_handler/EudHandler.py:1058-1083 | once the control queues are drained at most one announced open connection still consumes the device's queues |
| Supersession.LatestKeepsConsuming | raven/eud_handler/EudHandler.py:624-671 | a connection nobody announced over since it bound keeps consuming, and every other announced one has stepped aside |
| Supersession.ZombieCloseLeavesQueues | raven/eud_handler/EudHandler.py:339-425 | when such a stepped-aside connection closes it does not unbind the queues |
| Supersession.OldCloseTakesQueuesIff | raven/eud_handler/EudHandler.py:339-425 | in every run, drained or not, an open connection announced over unbinds the shared queues by closing exactly if it has received none of the hits published since it bound, one of which then waits in its queue |
| Supersession.OverlapLeavesNobody | raven/eud_handler/EudHandler.py:1058-1083 | the run in which overlapping announcements leave no consumer |
| RevocationKick.BoundExactlyOnce | raven/eud_handler/EudHandler.py:526-575 | whichever of channel and serial comes first, the queue is bound at most once, and exactly once when the request has been served on an open channel |
| RevocationKick.ClosedIffHit | raven/cert_revocation.py:341-398 | a drained connection is shut down exactly if an index check came after the write or a kick came after the broker applied its binding |
| RevocationKick.NoLostRevocation | raven/eud_handler/EudHandler.py:537-575 | with the binding applied before its check, a revoked and kicked serial always ends the connection, in every interleaving |
| RevocationKick.RevokedBeforeCheck | raven/eud_handler/EudHandlerSSL.py:45-62 | a revocation written before the check closes the connection without a kick |
| RevocationKick.LateBindingMissesKick | raven/eud_handler/EudHandler.py:537-575 | the run in which a late binding misses the kick |
| IndexText.NormalizeIndexSerial | raven/cert_revocation.py:65-86 | normalising the padded serial of the index gives the serial back |
| IndexText.NormalizeIsIdempotent | raven/cert_revocation.py:65-86 | a normalised serial is upper-case hex without leading zeros and normal already |
| IndexText.JoinSplit | raven/cert_revocation.py:271-331 | joining the fields of a line gives the line |
| IndexText.SplitJoin | raven/cert_revocation.py:271-331 | splitting joined fields gives the fields, when none holds a tab |
| IndexText.ReadPrint | raven/cert_revocation.py:154-159 | printing clean lines and reading them back is the identity |
| IndexText.ReadIsClean | raven/cert_revocation.py:154-159 | whatever the file holds, what is read from it prints and reads back as itself |
| RevocationIndex.LocateSerials | raven/cert_revocation.py:281-288 | the lookup finds, for each serial on a full line, a line that carries it |
| RevocationIndex.Revoke | raven/cert_revocation.py:271-331 | all or nothing: with every request valid the revoked set grows by exactly the requested serials, else the file is unchanged; on success every line stays but those of requested serials not yet revoked, which change only their status and get the time and reason of a request, and lines are added exactly for serials no line had, with the expiry, time, reason and subject of their request; a tidy index stays tidy and grows whenever it is written |
| RevocationIndex.RevokedCache.RevokedSerials | raven/cert_revocation.py:162-182 | with the size taken first and the file read after it, the stat-keyed cache gives all that was revoked at the first and nothing that is not by the second; exactly what the file says if it did not change in between |
| RevocationIndex.RevokeKeepsCaches | raven/cert_revocation.py:162-331 | after a revocation by any process the index is as it was or larger, it revokes no less, and every process's cache stays right |
| OfflineChat.QueueingIsExact | raven/offline_chat.py:217-276 | afterwards a device holds a copy exactly if it did before or was addressed, one per message |
| OfflineChat.CopiesAreForRecipients | raven/offline_chat.py:217-276 | every row made is for an addressed device that takes a queue, is not federated and had no copy, and remembers its user and groups |
| OfflineChat.Store.Queue | raven/offline_chat.py:217-276 | the loop appends exactly those rows, and the table keeps its unique keys |
| OfflineChat.PendingIsExact | raven/offline_chat.py:279-292 | exactly the undelivered unexpired rows of the device, the older before the younger and rows of one moment by id |
| OfflineChat.WorklistIsExact | raven/offline_chat.py:304-352 | what is sent is exactly the entitled pending rows, in that order |
| OfflineChat.SentOldestFirst | raven/offline_chat.py:279-352 | wherever sending stops, the rows sent are undelivered, unexpired and entitled, in order of creation and id, and every such row not sent is younger than all of them |
| OfflineChat.Store.CheckEntitled | raven/offline_chat.py:304-315 | with the memo table the check always gives what it gives without |
| OfflineChat.Store.SendPending | raven/offline_chat.py:344-352 | if the k-th send fails exactly the earlier rows were sent and stamped, each with its commit, and the rest is untouched |
| OfflineChat.Store.DeliverPending | raven/offline_chat.py:318-352 | rows from before the last receive less the grace are stamped unsent, then exactly the entitled pending ones are sent, ordered by creation and id, up to the first failing send |
| OfflineChat.FullDeliveryLeavesOnlyOthers | raven/offline_chat.py:318-352 | after a delivery that ran to its end only rows this user may not read are pending |
| OfflineChat.Store.RecordRx | raven/offline_chat.py:355-365 | from then on exactly the device's undelivered rows more than the slack older than the receive count as reached, if it has a euds row; other devices' rows count as they did |
| OfflineChat.ReceiveDecidesBacklog | raven/offline_chat.py:318-365 | the device's next backlog is exactly its pending rows from the grace before its last receive on |
| OfflineChat.Store.Settle | raven/offline_chat.py:368-401 | exactly the rows of connected devices heard from more than the TCP timeout after the row are stamped, and counted |
| OfflineChat.DroppedMembers | raven/offline_chat.py:404-426 | dropping takes exactly the undelivered rows of those devices |
| OfflineChat.Store.DropQueue | raven/offline_chat.py:404-426 | the table after dropping, and how many rows went |
| OfflineRuns.StampedMeansReceived | raven/offline_chat.py:318-401 | in every run with crashes and overlapping connections a stamped row was stamped by a step before which its bytes had been written to a connection of its device entitled to it between its opening and that write, or the server had recorded a receive more than RX_GRACE after it |
| OfflinePurges.NoRowIsLost | raven/offline_chat.py:217-426 | in every run a row is in the table, was revoked undelivered, or was past the cutoff of a purge, and then pending_messages would still have returned it exactly if the retention had been raised far enough or lifted since that purge read it |
| OfflinePurges.BatchTakesPendingIff | raven/retention.py:125-142 | in every run a batch takes a row pending_messages would still return exactly if the retention in force exceeds the one its purge read by as much as the row was overdue, set again since then if the clock was not set back |
| OfflinePurges.OnlyRefusedRowsGo | raven/retention.py:791-800 | if nobody raises or lifts the retention from a purge's start to its batch, the batch takes only rows pending_messages refuses |
| OfflinePurges.RaiseLosesPending | raven/retention.py:791-800 | the run in which the retention is raised during a purge and a row that is pending again is deleted |
| OfflineRuns.StampedBeforeFetchIsNeverSent | raven/offline_chat.py:344-352 | a connection that fetched its list after a row was stamped never sends it |
| OfflineRuns.OutstandingOldestFirst | raven/offline_chat.py:344-352 | in every run what a connection has still to send is in order of creation and id |
| OfflineRuns.SendsStampedRowIff | raven/offline_chat.py:344-352 | the next row to send is stamped already exactly if somebody else stamped it since this connection fetched its list |
| OfflineRuns.UndisturbedNeverResends | raven/offline_chat.py:318-352 | with no other connection of the device open, none opened and the settling job away from it, a connection never sends a row that is stamped |
| OfflineSolo.SoloIsDeliverPending | raven/offline_chat.py:318-352 | the steps of the runs, taken by one connection with nobody in between, leave the table as DeliverPending states |
| OfflineSolo.SettleIsStampReached | raven/offline_chat.py:368-401 | the settling step of the runs leaves the table Settle does for that device |
| OfflineSolo.RevokeIsDropped | raven/offline_chat.py:404-426 | and the revoking step the rows DropQueue leaves |
| OfflineRuns.AllowedWasEntitled | raven/offline_chat.py:304-315 | what the memoised check allows was allowed by the memberships at some moment while the connection was open |
| OfflineRuns.OverlapSendsTwice | raven/offline_chat.py:344-352 | the run in which overlapping connections send a row twice |
| ChatRouting.Addressing | raven/offline_chat.py:178-214 | the recipients are exactly the picked devices, by uid, and the stored groups are those of team chat |
| ChatRouting.DestPicksIff | raven/offline_chat.py:178-214 | with a dest that counts, a device is picked exactly if one names it by callsign, or without one by a uid that is not the sender's |
| ChatRouting.TeamPicksIff | raven/offline_chat.py:83-214 | without one, exactly the devices on the chat room's team are picked whose user reads a named group, else a group the sender writes to, else, if there is none, has no OUT membership |
| ChatRouting.QueryAgreesWithCheck | raven/offline_chat.py:113-162 | the query that picks readers and the check at delivery agree on every user and group list |
| ChatRouting.PickedPassesDelivery | raven/offline_chat.py:113-315 | with unchanged memberships the row of a picked device passes the whole delivery check, owner and groups, on a connection of its user |
| ChatRouting.QueueOfflineChat | raven/offline_chat.py:217-276 | from the event on: a device holds a copy exactly if it did or was picked and takes a queue, and each new row may be delivered to its device's user |
| ChatRouting.RouteCot | raven/cot_parser/cot_parser.py:1146-1237 | exactly which exchange and keys an event is published to, early returns included |
| ChatRouting.BindQueues | raven/eud_handler/EudHandler.py:907-1027 | the broker bindings of a connected device, and that every one of them is listed for unbinding |
| ChatRouting.PickedIsReachedIff | raven/cot_parser/cot_parser.py:1146-1237 | a device a copy is queued for is reached live exactly if there is no dest, some dest counts as an address, or a dest carries one of its two names |
| ChatRouting.SilentReachesNobody | raven/cot_parser/cot_parser.py:1146-1149 | an event without sender or from the server itself reaches nobody |
| ChatRouting.DestReachesIff | raven/cot_parser/cot_parser.py:1173-1198 | an event with a dest reaches exactly the devices whose uid or callsign a dest carries |
| ChatRouting.TargetsReachIff | raven/cot_parser/cot_parser.py:1153-1171 | one that names groups reaches exactly the readers of a group so named, and for __ANON__ those without OUT memberships |
| ChatRouting.MembersReachIff | raven/cot_parser/cot_parser.py:1210-1237 | one from a user who writes to some group reaches exactly the readers of a group of such a name, and for __ANON__ those without OUT memberships |
| ChatRouting.OthersReachIff | raven/cot_parser/cot_parser.py:1200-1228 | one from any other sender reaches exactly those without OUT memberships and the readers of a group called __ANON__ |
| ChatRouting.MissionChatReachesNobody | raven/cot_parser/cot_parser.py:1146-1237 | the team message that is queued but routed to nobody |
| Retention.Table.DeleteInBatches | raven/retention.py:125-142 | it ends; only matching rows go, the total is the rows removed, without a late batch or failed commit exactly a single delete's rows go, and files go only with their committed rows |
| Retention.KeptRowsKeepTheirFiles | raven/retention.py:125-150 | when no two rows share a file, every row that stays keeps the files it had |
| Retention.AgedIff | raven/retention.py:157-169 | a row is selected exactly if its time is from the year 2000 on and past the cutoff, or its time is missing, earlier, or over a day in the future and a later-received row is past the cutoff |
| Retention.FreshRowsStay | raven/retention.py:157-169 | a believable time at or after the cutoff is never selected |
| Retention.LaterCutoffSelectsMore | raven/retention.py:157-169 | selection is monotone in the cutoff |
| Retention.PurgeByAge | raven/retention.py:257-273 | a purge removes only rows past the cutoff as the table was at the start, and all of them if nothing cuts it short |
| Retention.RecomputedBoundaryLosesIff | raven/retention.py:157-169 | deleting changes the boundary, as the documentation says: worked out again it selects no more, and loses exactly the unbelievable rows whose every later row past the cutoff is gone |
| Retention.ChangesAreStable | raven/retention.py:425-469 | deleting changes leaves the same latest additions to keep, so the batches add up to one delete |
| Retention.PurgeMissionChanges | raven/retention.py:425-469 | only changes past the cutoff that are not kept go, and all of them if nothing cuts it short |
| Retention.LatestAddStays | raven/retention.py:425-469 | whatever batches went, an item or content still in its mission has the change that last added it |
| Retention.OthersGo | raven/retention.py:425-469 | any other change past the cutoff is selected |
| RetentionCot.PurgeIsSafe | raven/retention.py:181-245 | wherever it stops, the purge with all foreign-key cascades reaches no marker, alert, CasEvac, chat, R&B line, CITrap or video stream, every reference still resolves, and only aged unused rows went |
| RetentionCot.SelectsIff | raven/retention.py:181-245 | a CoT is selected exactly if aged, in no mission and not referred to, directly or by a point of its; a point exactly if aged and not referred to |
| RetentionCot.NoReferrerIsReached | raven/retention.py:181-245 | the cascades of any batch reach no referring row, so no restricting key refuses it |
| RetentionCot.MissionContentStays | raven/retention.py:199-245 | no CoT that is mission content is removed |
| RetentionCot.Store.PurgeCot | raven/retention.py:199-245 | the two loops, with the boundaries of the whole tables: safe wherever a deadline stops them, and exactly a single pair of deletes if none does |
| RetentionCot.FinishedPurgeIsExact | raven/retention.py:199-245 | a finished purge removed exactly the CoTs its clause selected at the start, and exactly the points its clause selected or those CoTs took along |
| Metrics.JoinIsInjective | raven/metrics.py:126-127 | with the service's labels fixed no two label sets render alike |
| Metrics.RenderedKeysAreDistinct | raven/metrics.py:299-306 | a service's counters keep distinct keys once its own labels are added, so no delta overwrites another |
| Metrics.SharedCounters.Inc | raven/metrics.py:149-158 | only a known series with a positive amount and the lock counts, modulo 2^64, and no other slot changes |
| Metrics.GrowthIsExact | raven/metrics.py:299-306 | the delta of a counter is what it stands at less what was flushed, and nothing if it stands below that |
| Metrics.MetricCounters.Write | raven/metrics.py:233-256 | the transaction adds every positive delta to its row, creating it, and changes no other |
| Metrics.MetricsFlusher.Flush | raven/metrics.py:299-316 | a successful flush adds the growth and records it, a failed one changes nothing |
| MetricsRuns.BalancedIff | raven/metrics.py:149-316 | over every interleaving each stored counter is its initial value plus direct records plus what each service holds as flushed, exactly if no successful flush saw a counter below what was flushed of it |
| MetricsRuns.StoredIsInitialPlusFlushed | raven/metrics.py:149-316 | in particular below 2^64 each stored counter is its initial value plus direct records plus what each service holds as flushed |
| MetricsRuns.StoredNeverExceedsMade | raven/metrics.py:149-316 | in every run, wrapped slots included, a stored counter never holds more than its initial value, the direct records and what was counted |
| MetricsRuns.StoredNeverDecreases | raven/metrics.py:197-256 | a stored counter never decreases in any run |
| MetricsRuns.QuietFlushCatchesUp | raven/metrics.py:299-316 | a successful flush with nothing counted meanwhile leaves everything flushed |
| MetricsRuns.CaughtUpIsExact | raven/metrics.py:299-316 | when every service has caught up the flushed sums are what was counted |
| MetricsRuns.WrapBreaksTheBalance | raven/metrics.py:137-316 | the run from a start in which a wrapped slot breaks the balance |
| MissionUpsert.Store.UpsertItem | raven/models/MissionChange.py:313-365 | ordinary path and collision path merge alike, also when another process inserts the item first, and the item is then in the call's mission with its time and creator |
| MissionUpsert.Store.RecordChange | raven/models/MissionChange.py:367-386 | the item's ADD_CONTENT row in this mission is refreshed, or made if there is none |
| MissionUpsert.Store.Upsert | raven/models/MissionChange.py:313-386 | both tables after a call |
| MissionUpsert.RunKeepsOneAddEach | raven/models/MissionChange.py:313-386 | over any run there is at most one ADD_CONTENT change per mission and item |
| MissionUpsert.EveryCallIsRecorded | raven/models/MissionChange.py:313-386 | every item upserted into a mission has one, also after later calls |
| MissionUpsert.OtherChangesUntouched | raven/models/MissionChange.py:367-386 | changes of other kinds are neither changed nor made |
| MissionUpsert.LastSuppliedWins | raven/models/MissionChange.py:313-365 | each optional column holds the last value any call supplied, or what it held before the run |
| MissionUpsert.LastCallPlacesItem | raven/models/MissionChange.py:313-365 | over any run an item is in the mission of the last call for it, with its time and creator |
| MissionUpsert.UncalledItemStays | raven/models/MissionChange.py:313-365 | an item no call is for is as it was |
| MissionUpsert.LastCallIsRecorded | raven/models/MissionChange.py:367-386 | over any run the addition of a mission and item carries the creator and times of the last call for both, and one no call is for is as it was |
| MissionRuns.OneAddEachIff | raven/models/MissionChange.py:367-386 | for any run of any number of overlapping calls: at most one ADD_CONTENT change per mission and item, exactly if no call wrote for one between another's look that found none and its write |
| MissionRuns.AloneIsRecordChange | raven/models/MissionChange.py:367-386 | a look followed at once by its write is the whole change half |
| MissionRuns.OtherKindsUntouched | raven/models/MissionChange.py:367-386 | changes of other kinds come out of any such run as they went in |
| MissionRuns.OverlapRecordsTwice | raven/models/MissionChange.py:367-386 | the run in which two calls look before either writes, and leave two rows |
| DeviceProfiles.MatchLevel | raven/device_profiles.py:410-424 | the level is the greatest way the profile matches, None if it does not |
| DeviceProfiles.LevelIsMostSpecific | raven/device_profiles.py:410-424 | a device target beats a user target, that a group and that everyone |
| DeviceProfiles.MatchingProfiles | raven/device_profiles.py:427-457 | exactly the applicable matching profiles with their levels, strictly ordered by level, update time (none counts as the earliest) and id |
| DeviceProfiles.MatchIff | raven/device_profiles.py:427-457 | a profile applies exactly if it is enabled and meant for the phase: a tool's profile for that tool alone, any other for the phases it is switched on for |
| DeviceProfiles.Merge | raven/device_profiles.py:460-497 | the nested overwriting loops leave for each key the entry of the last profile that has it |
| DeviceProfiles.Resolve | raven/device_profiles.py:460-497 | for each key any matching profile has, the entry of the one with the greatest level, update time and id, strictly sorted by key |
| Sorting.LessIff | raven/device_profiles.py:475-497 | the keys are sorted as strings are: by the first character in which they differ, a proper prefix first |
| DeviceProfiles.ResolveSettings | raven/device_profiles.py:460-475 | the settings of that resolution, each from the profile named, with an empty string for no value and the string class for no class |
| DeviceProfiles.ResolveFiles | raven/device_profiles.py:478-497 | the files of that resolution, no two of them at the same path ignoring case |
| DeviceProfiles.ResolutionIgnoresQueryOrder | raven/device_profiles.py:460-497 | the order in which the database returns the profiles makes no difference |
| DeviceProfiles.ReadUpload | raven/device_profiles.py:617-644 | exactly the non-empty uploads that fit the file limit and the room left are stored, whatever the chunks |
| DeviceProfiles.FileList.Add | raven/device_profiles.py:589-660 | every limit holds after an add, the file at the same path is replaced, and a refusal changes nothing |

## Left out

- Entities with equal ids in one policy that alias or shadow each other: lookups find the first one, and the edits are stated for the first one; a hub's policies have distinct ids.
- PolicyTheorems.RemoveUndoesAddExactly: for a graph with a nodes list or dict; without one the add makes a list, which removal leaves empty, as RemoveUndoesAdd states.
- The JSON text in an entity's description: it is a parsed value here.
- PolicyIds.UpdateFindsPartnerAgain: a node without the name key at all, for which the source raises instead of returning an id.
- Validators of names, hosts, ports, filters and CA files, connection checks, traffic figures, and the problems list of a partner: single checks with no state.
- PolicyApply.ApplyPolicy: the hub answers one caller; two administrators at once are kept apart by a lock that is not part of this model.
- Supersession.AtMostOneConsumer: control messages do not expire and are not lost; a closed handler's queue is gone.
- EudHandlers.EudHandler.CloseConnection: one step; the broker and database failures it catches one by one, and a second thread inside it, are not modelled.
- Reassembly of the event stream in `handle`, the channel's other queues, authentication and parsing of events.
- RevocationKick.NoLostRevocation: the binding being applied before its check is a fact about the broker's timing that no caller can see; ClosedIffHit is the exact form.
- RevocationIndex.Revoke: the CRL generation after the index is replaced may still fail and raise, with the new index in place; OpenSSL is not modelled. Sizes are in characters, and digits outside ASCII are not accepted as hex.
- RevocationIndex.RevokedCache.RevokedSerials: an index file that does not exist (no serials).
- RevocationIndex.RevokeKeepsCaches: for an index only this code and openssl's format write (each line plain, one text form), since a hand edit may keep the size and time of the file.
- OfflineChat.Store.DeliverPending: one `now` for the whole call and memberships that do not change during it; OfflineRuns lets both move. Refreshing the stale time in the stored XML is not modelled, nor are message texts.
- OfflineChat.Store.Queue: another worker queueing the same message at the same moment, which the unique key turns into a rollback. User id 0 does not occur.
- OfflineRuns.StampedMeansReceived: a receive is any value recorded earlier for the device, since it is read before it is used, and so is the retention a fetch goes by; a write counts as done when the send returns.
- OfflinePurges.BatchTakesPendingIff: a batch selects and deletes in one step, since the time a row was created never changes; a purge that stops or dies takes no more batches.
- ChatRouting.PickedIsReachedIff: keys match literally; group names with the topic wildcards `*` and `#` reach more. A plain TCP connection has no user and an SSL one has.
- Equality of offline and live team recipients: the live bindings are wider where `__ANON__` is involved.
- Retention of recordings and logs, settings and their bookkeeping, `_purge_markers`, and rows inserted by other processes while a purge runs.
- RetentionCot.PurgeIsSafe: cascades below the referring tables (a CasEvac's ZMIST rows) are not reached, because the referring rows are not.
- MetricsRuns.StoredIsInitialPlusFlushed: flushes of one service do not overlap, and a commit the database applied but reported as failed is not modelled (it would count twice). Gauges, the sample tables and the reading side (`totals`, `by_label`) are left out.
- MissionRuns.OneAddEachIff: changes that other code deletes between a look and its write. The mission_uids half races in UpsertItem.
- MissionUpsert.Store.Upsert: the change CoT, the server clock beyond its stored value, foreign-key failures for a missing mission, and the bulk update in `parse_point`.
- DeviceProfiles.FileList.Add: from the sanitised path on; digests, stored names and the bytes on disk are left out. Lower-casing is ASCII.
- coerce_value and the other input checks of device profiles: single-branch conversions.
- LDAP, plugins, the Marti API, serialisers, Meshtastic, sockets and e-mail.
