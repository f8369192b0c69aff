# Verification of pskDB

pskDB is a replicated key-value store. Servers hold one versioned record per key, send each write to
the other servers asynchronously, gossip about membership, and flood whole stores on `stabilize`.
Clients remember, per key, the last version they were given and send it with each request, which is
meant to give Read Your Writes and Monotonic Reads. This project models the servers, the clients and
the network, and proves what the protocol guarantees over whole runs.

## Layout

| file | content |
|---|---|
| `Lamport.dfy` | server ids as decimal fractions, the version allocator, the receive rule |
| `Store.dfy` | the store as a map, merging by version, independence of arrival order |
| `Replica.dfy` | what each store handler does to one server, as functions; the write log and its replay |
| `Server.dfy`, `Client.dfy` | the server and the client on the heap, with mutable records and loops |
| `System.dfy` | all servers, clients and messages in flight, as a step function on labelled events |
| `Refinement.dfy` | each heap handler takes the corresponding step |
| `Events.dfy`, `MembershipEvents.dfy` | what each event of a run does, told from the states before and after it |
| `VersionAgreement.dfy`, `Sessions.dfy`, `OneServer.dfy`, `Logs.dfy` | properties of every run |
| `SessionFailures.dfy` | runs in which a client reads an older value |
| `Ties.dfy` | two servers of one fraction, each keeping its own write |
| `Graph.dfy`, `Flooding.dfy`, `EventualConsistency.dfy`, `LineOfServers.dfy` | `stabilize` |
| `Membership.dfy`, `MembershipServer.dfy`, `Fanout.dfy`, `Gossip.dfy` | gossip and the failure detector |
| `Connections.dfy` | blacklists and the master's connection commands |

A run is a sequence of states and a sequence of events, each enabled in its state. Each handler is one
step: it holds the store's mutex throughout and updates the clock at most once. Steps of different
servers interleave freely; remote writes can be delayed, reordered, repeated or lost, and a reply to a
client can be lost after the server has acted.

## Where the code differs from its description

- `ConditionalIncrementLamportTimestamp` is meant to return a version above the one it is given. It does
  so exactly when that version is below the clock's next tick; a put for which it is not is said to lag.
  From two ticks ahead the clock stalls, from three it runs backwards (`ConditionalIncrementExact`).
- Version agreement and eventual consistency therefore hold as long as no put's pivot has been two ticks
  or more ahead of the server (`VersionAgreement`, `EventuallyConsistent`), a wider class than the runs
  without lag. The bound is exact: one put less than three ticks ahead can repeat a version
  (`StallBreaksAgreement`).
- The versions a client is answered with for a key never fall exactly as long as the client, at each of
  its own answered puts on that key, has recorded a version at most one tick ahead of the server
  (`SessionOrderIff`, `RecordedNeverFallsIff`). When it is further ahead, the client can write, write
  again, and read its first write back (`LagBreaksReadYourWrites`).
- Version order is not yet the promise that no older value is read. While every put ticks, that is, its
  pivot is less than two ticks ahead, and fractions are distinct, that promise, on records, holds under
  exactly the same condition (`SessionRecordsIff`). Other clients' puts matter to it, on other keys too:
  one that does not tick can set the clock back, so that a version is issued twice and a client reads its
  own overwritten write, or a value older than one it has read, at an equal version
  (`OthersLagBreaksReadYourWrites`, `OthersLagBreaksMonotonicReads`).
- `HeartbeatPreventsLag`, `GossipPreventsLag` and `GetsReadTheMap` show when lag cannot arise.
- The receive rule brings a server above every clock in a heartbeat exactly when its id is not negative;
  a negative id falls short by less than one tick (`ReceiveRule`, `ReceiveRuleIff`).
- A put on an existing key starts from the client's version, not the stored one, so it can lower the
  stored version (`PutLowersStoredVersion`).
- Ids that differ only in trailing zeros share a fraction (`SameFractionIff`), and then two servers can
  issue one version for two writes (`SharedFractionCollides`); so can
  "-5" and "95" (`SharedFractions`).
  Stores that tie on a highest version never agree, however often `stabilize` runs
  (`StabilizeAgreesIff`).
- A push from another server is not logged, so the log stops matching the store exactly when a push
  brings something new (`PushKeepsReplayIff`).
- A joining server can inherit a suspicion and then deletes the entry after a single timeout
  (`InheritedSuspicionRun`).
- The client and the servers compare errors with a freshly made `ErrShutdown`, which no RPC returns, so
  a failed call always moves on to the next server.

## Model

| member | source | states |
|---|---|---|
| Lamport.FloorRecoversSeqnum | server/server.go:88-96 | the floor of a timestamp is its sequence number exactly when the id is not negative |
| Lamport.OffsetBounds | server/server.go:93-95 | an id adds strictly less than one, and its sign is that of the id |
| Lamport.DecimalIsShift | server/server.go:89-94 | the parsed id divided by ten per character is its digits read after a decimal point, for strings of any length |
| Lamport.SameFractionIff | server/server.go:88-96 | two digit-string ids share a fraction exactly when they agree after stripping trailing zeros |
| Lamport.SharedFractions | server/server.go:88-96 | "1" and "10", and likewise "-5" and "95", have one fraction |
| Lamport.SignedOffset | server/server.go:89-94 | a signed id adds its digits read one place further right, negated for a minus sign |
| Lamport.ConditionalIncrementExact | server/server.go:124-134 | result above or at least the pivot, clock advanced by one, stalled or moved back: each with its exact condition |
| Lamport.ConditionalIncrementWhenLagging | server/server.go:131 | a pivot at or above the next tick costs one tick for each whole tick by which it is above |
| Lamport.ConditionalIncrementKeepsFraction | server/server.go:127-133 | both branches keep the clock's fractional part |
| Lamport.ReceiveRule | server/rpc.go:125-136 | after a list of clocks the receiver has advanced by at least the list's length and is above every one of them, less a shortfall below one tick that only negative ids have |
| Lamport.ReceiveRuleIff | server/rpc.go:125-136 | the receiver ends above every clock of every list exactly when its id is not negative |
| Lamport.ReceiveClosedForm | server/rpc.go:125-136 | the clock after a list is exactly the greatest of the own clock with a tick per entry and of where each sent clock would bring it |
| Lamport.ReceiveKeepsFraction | server/rpc.go:128-136 | receiving heartbeats keeps the server's own fraction |
| Store.HighestWins | server/rpc.go:349-359 | any sequence of remote writes and pushes leaves for each key a highest-version record among those offered, and exactly the offered keys |
| Store.FirstOfHighestWins | server/rpc.go:355-359 | ties go to whoever was first: the record left is the stored one, or that of the first update with the highest version |
| Store.OrderIrrelevant | server/rpc.go:440-449 | when equal versions mean equal records, reordering or repeating updates gives the same store |
| Store.OrderMattersWithoutAgreement | server/rpc.go:355-359 | two different records for a key make arrival order visible exactly when their versions tie |
| Store.FirstOfTwoStays | server/rpc.go:355 | of two remote writes of one key and version the first to arrive stays |
| Replica.PutExceedsPivot | server/rpc.go:278-292 | a put's version exceeds the one it starts from exactly when the put does not lag |
| Replica.PutTicksIff | server/server.go:127-133 | a put moves the clock on, by one, exactly when its pivot is less than two ticks ahead |
| Replica.PutInReachIff | server/rpc.go:278-292 | a put is answered with a version not below the recorded one exactly when that is at most one tick ahead, the recorded version -1 included |
| Replica.PutLowersStoredVersion | server/rpc.go:286-294 | without lag a put lowers the stored version exactly when that is above the clock's next tick |
| Replica.ReplayIsLastWrite | server/server.go:106-111 | replaying a log gives the last logged write of each key and no other key |
| Replica.PushKeepsReplayIff | server/rpc.go:435-451 | an unlogged push keeps log and store in step exactly when it brings nothing newer |
| Server.ServerListener.constructor | server/server.go:226-237 | a new server has an empty store and log and a clock of one plus its fraction |
| Server.KeyValueInfo.constructor | server/structs.go:119-127 | a new record is a copy, so later updates of the original do not reach it |
| Server.ServerListener.GetAndIncrementLamportTimestamp | server/server.go:114-120 | returns the clock from before the increment |
| Server.ServerListener.ConditionalIncrementLamportTimestamp | server/server.go:124-134 | returns the clock from after the update |
| Server.ServerListener.AddToWriteLog | server/server.go:106-111 | appends a fresh copy and leaves earlier entries alone |
| Server.ServerListener.PutKVServer | server/rpc.go:266-320 | the record, the log, the clock, the reply and the messages sent to live members, with the log's earlier entries unchanged |
| Server.ServerListener.GetKVServer | server/rpc.go:323-342 | the reply in all three cases, and only the clock changes |
| Server.ServerListener.ProcessRemoteWrite | server/rpc.go:345-361 | a newer write is stored and logged, an older or tied one changes nothing |
| Server.ServerListener.SendKVData | server/rpc.go:435-451 | whatever the order in which the loop takes the keys, and whatever keys the records name, the store is the merge with the push and the log is unchanged |
| Server.PushedRecord | server/rpc.go:440-449 | value and version come from a push exactly if the key is new or the version higher, and a record keeps the key it names |
| Server.ServerListener.PushToMembers | server/rpc.go:397-418 | every member with a live connection is sent the whole store |
| Server.ServerListener.ReceiveClockList | server/rpc.go:125-136 | the clock after the loop is the receive rule over the list |
| Client.ClientListener.PutKVClient | client/client.go:64-98 | servers are tried in turn until one answers; each call on which a server acts, answered or lost, is a put step of the system in that order, other events come in between, and the client records what the system's session records |
| Client.ClientListener.GetKVClient | client/client.go:102-140 | as for a put; the reply is that of the last step, and ERR_KEY and ERR_DEP replies are not recorded |
| Client.ClientListener.CreateConnection | client/client.go:38-45 | an existing connection keeps its address |
| Client.ClientListener.BreakConnection | client/client.go:49-60 | exactly the named server is removed |
| Refinement.Put | server/rpc.go:266-320 | the server's half of a put takes the system's put step, reply and messages included, whether or not the answer arrives |
| Refinement.Get | server/rpc.go:323-342 | the server's half of a get takes the system's get step and returns its reply |
| Refinement.ReceiveWrite | server/rpc.go:345-361 | a delivered remote write takes the system's step |
| Refinement.ReceivePush | server/rpc.go:435-451 | in any state a run can reach, a delivered push takes the system's step |
| Refinement.Snapshot | server/rpc.go:407-414 | a stabilize copy is the message the system's step puts in flight |
| Refinement.ReceiveHeartbeat | server/rpc.go:125-136 | a heartbeat's clocks take the system's step |
| Refinement.OneClock | server/rpc.go:125-136 | sending and receiving a heartbeat move the clock alike in the gossip view and in the store view of a server |
| Events.PutWrites | server/rpc.go:266-318 | a put stores, logs, issues, answers with and sends one record, stamped with the clock from before for the first write of a key by a client with nothing on record and the clock from after in every other case |
| Events.PutMovesClock | server/rpc.go:278-292 | the exact clock after a put, from the client's version or the stored one, lag included |
| Events.EveryIssueStamped | server/rpc.go:274-296 | every version issued in a run was stamped like that by its put |
| Events.GetAnswers | server/rpc.go:328-340 | an absent key answers ERR_KEY with the clock from before, a record below the client's version ERR_DEP with its own version, any other record itself |
| Events.ErrorsMeanWhatTheySay | README.md:16 | in any run ERR_KEY means an absent key and ERR_DEP a record below the client's version, unless some client wrote that very text |
| Events.GetTicks | server/rpc.go:328-340 | a get costs exactly one tick and changes nothing else, and errors are not recorded |
| Events.WriteArrives | server/rpc.go:345-361 | a remote write is stored and logged exactly when the key is new or its version higher; on a tie the server stays as it is |
| Events.PushArrives | server/rpc.go:440-449 | key by key what a push leaves, ties to the record that is there, with log and clock untouched |
| Events.HeartbeatArrives | server/rpc.go:125-136 | over runs, the closed form of the clock after a heartbeat, and nothing else changes |
| Events.HeartbeatSent | server/server.go:145-147 | sending a heartbeat costs exactly one tick |
| Events.ServerStarts | server/server.go:226-237 | a new server has nothing but a clock of one plus its fraction |
| Events.ClockCounts | server/server.go:114-134 | a server that hears no heartbeat counts exactly its puts, gets and heartbeats while every put ticks |
| Events.FirstVersion | server/server.go:88-96 | the first version a new server issues for a first write is one plus the digits of its id after the decimal point |
| VersionAgreement.FractionsInvariant | server/server.go:88-134 | in every reachable state each clock and each issued version has its server's fraction, lag or not |
| VersionAgreement.DistinctServersNeverCollide | server/server.go:93-95 | servers with distinct fractions never issue equal versions, lag or not |
| VersionAgreement.OriginInvariant | server/rpc.go:266-361 | every record in a store, log or message was issued by some put |
| VersionAgreement.BoundsInvariant | server/server.go:114-134 | if every put so far ticked, every version a server issued is at most its clock and the key is present there |
| VersionAgreement.VersionAgreement | server/rpc.go:266-318 | if every put so far ticked and fractions are distinct, every record held anywhere came from exactly one put and no other put on the key has its version |
| VersionAgreement.SharedFractionCollides | server/server.go:88-96 | any two ids with one fraction can issue one version for two writes of a key, without lag, and then a held record did not come from exactly one put |
| Ties.EachKeepsItsOwn | server/rpc.go:355 | servers of one fraction that both took a first write of a key keep their own after each write has reached the other, and readers are answered differently at one version |
| VersionAgreement.StallBreaksAgreement | server/server.go:127-133 | for any two servers, distinct fractions or not, a run without lag leads to a state where one put less than three ticks ahead repeats another put's version, so that a held record did not come from exactly one put |
| VersionAgreement.EventsTick | server/server.go:114-134 | every put that ticks, every get and every heartbeat advances its server's clock by at least one |
| Sessions.SessionOrderIff | client/client.go:75-135 | in any run, from an answer on, the versions a client is answered with for a key never fall exactly when it is in reach of the server at each of its own later puts on the key |
| Sessions.SessionRecordsIff | README.md:13-14 | if every put so far ticked and fractions are distinct, each later answer about a key is a newer record, or a get of the same one, exactly when the client is in reach at each of its own puts |
| Sessions.RecordedNeverFallsIff | client/client.go:75-94 | in any run, over any span, the version recorded for a key never falls exactly when each such put is in reach |
| Sessions.SessionGuarantee | README.md:76-78 | in a run without lag a later answer to a client about a key never has a lower version, a put's is higher, and with distinct fractions it is a newer record or a get of the same one |
| Sessions.MonotonicReads | README.md:14 | a get after any answer, with no put by the client on the key in between, never has a lower version in any run, and is a newer record or the same while puts tick and fractions are distinct |
| Sessions.ReadsNotBelowRecorded | client/client.go:113-135 | in any run, across a span without a put by the client on the key, its recorded version never falls and a successful get is not below it |
| Sessions.PutKeepsSessionIff | server/rpc.go:287-294 | an answered put keeps the session's order exactly when the client is in reach of the server |
| Sessions.HeartbeatPreventsLag | server/rpc.go:132-136 | after a heartbeat listing a clock at or above a put's pivot the put does not lag, as long as every earlier put has ticked |
| Sessions.GossipPreventsLag | server/server.go:145-177 | the heartbeat a server sends after issuing a version keeps a put with that version as pivot from lagging at whoever has received it |
| SessionFailures.LagBreaksReadYourWrites | README.md:13 | after two joins and four heartbeats sent, a client writes at one server, writes again at the other, and reads its first write back at the first |
| SessionFailures.OthersLagBreaksReadYourWrites | README.md:13 | for any two servers, a run in which a client is in reach at each of its puts, writes twice and reads its first write, because of another client's put on another key |
| SessionFailures.OthersLagBreaksMonotonicReads | README.md:14 | for any two servers, a run in which a client that writes nothing reads a value and then the one it had overwritten |
| OneServer.RefinesMap | server/rpc.go:266-342 | with one server the store is the plain map of the puts so far, and no recorded or stored version is above the clock or the stored one |
| OneServer.GetsReadTheMap | server/rpc.go:323-342 | with one server no call lags and every get of every client returns what the plain map returns, never for want of a newer version |
| Logs.LogFrozen | server/server.go:106-111 | over any run a log only grows and its entries never change |
| Logs.ReplayInvariant | server/rpc.go:274-296 | a server no push has reached stores exactly what its log replays to |
| Graph.ShortPath | master.go:357-366 | connected servers are at most n - 1 edges apart |
| Graph.CutLoops | master.go:357-366 | every path between two servers can be cut to one that visits no server twice |
| Flooding.RoundCovers | server/rpc.go:395-430 | whatever the interleaving, one round carries each store over each edge |
| Flooding.RoundsReach | server/rpc.go:395-430 | after r rounds each store has reached every server at most r edges away |
| Flooding.PartitionIsolation | server/rpc.go:397-424 | stabilize never gives a server a record that no server connected to it held at the start |
| Flooding.FloodingConverges | master.go:357-366 | with n servers up, after n - 1 rounds each store is exactly the join of its component's stores at the start |
| Flooding.LockStepReach | README.md:80-82 | when each round takes all snapshots before delivering any, r rounds carry a record at most r edges |
| LineOfServers.FewerRoundsDoNotSuffice | master.go:357-366 | on any line of n servers there is a run in which n - 2 rounds leave its ends with different stores |
| LineOfServers.LockStepExists | server/rpc.go:395-430 | from any state without messages in flight a lock-step round is possible |
| EventualConsistency.StabilizeAgreesIff | server/rpc.go:440-449 | with n servers up, after n - 1 rounds a component's stores are identical exactly when no two of its servers began with different records of one key's highest version |
| EventualConsistency.EventuallyConsistent | server/rpc.go:386-451 | after any run in which every put ticked, with distinct fractions and n servers up, n - 1 rounds leave connected servers with identical stores |
| EventualConsistency.ArrivalOrderIrrelevant | server/rpc.go:345-361 | in such a run the order and repetition of the messages in flight do not change the store they lead to |
| Membership.HeartbeatReceiveRule | server/rpc.go:125-136 | the receive rule over a heartbeat's whole list, entry by entry with the membership updates, with the shortfall of a negative id |
| Membership.HighestCounterKept | server/rpc.go:156-160 | for a known server a heartbeat leaves the highest counter among the recorded one and the list's |
| Membership.RisenIsAlive | server/rpc.go:156-166 | a known entry is untouched unless its counter rises, and then it is alive, unsuspected and freshly stamped |
| Membership.HeartbeatRevives | server/rpc.go:159-166 | a heartbeat with a higher counter for a suspected server clears the suspicion |
| Membership.AdmitsOnlyUnsuspected | server/rpc.go:139-154 | a heartbeat admits exactly the unknown servers that have an entry not under suspicion, never the receiver |
| Membership.AdmittedEntry | server/rpc.go:139-160 | the entry a heartbeat brings in is the first unsuspected one with the local time and the highest counter from there on |
| Membership.DeletionNeedsSilence | server/server.go:152-168 | a scan deletes an entry only after two timeouts of silence, or one for an inherited suspicion |
| MembershipServer.ServerInfoRecord.constructor | server/structs.go:34-49 | a copy of the entry stamped with the local time |
| MembershipServer.MembershipListener.HeartbeatNotification | server/rpc.go:115-169 | the loop's effect on the clock and on every record, updated in place |
| MembershipServer.MembershipListener.StartHeartbeat | server/server.go:143-168 | counter and clock advance and the timeout loop treats every entry once, in any order |
| MembershipServer.MembershipListener.Describe | server/server.go:175-181 | the list sent is the server's own entry and each member's once |
| MembershipServer.MembershipListener.JoinClusterAsServer | server/rpc.go:16-69 | refusals, the reply made before the joiner is added, and the members with a live connection are told |
| MembershipServer.MembershipListener.NewServerNotification | server/rpc.go:73-93 | known servers and the server itself are not added |
| MembershipServer.MembershipListener.AdoptReply | server/server.go:266-274 | a joiner adopts the entries it does not know |
| MembershipServer.MembershipListener.KillServerNotification | server/rpc.go:224-238 | exactly the named server is forgotten |
| Fanout.PickRecipients | server/server.go:182-210 | the two-index scan stays in bounds and picks exactly the members at the chosen positions, all distinct |
| MembershipEvents.ServerStarts | server/server.go:226-237 | a server starts with counter one, a clock of one plus its fraction and nobody listed |
| MembershipEvents.JoinAsked | server/rpc.go:26-68 | the joiner is entered alive with counter one unless it is listed already, and nothing else changes |
| MembershipEvents.JoinAnswered | server/rpc.go:34-65 | the reply lists the server and those it listed before; notices go to those and carry the joiner's entry |
| MembershipEvents.HeartbeatSent | server/server.go:143-168 | counter and clock rise by one; each entry is kept, suspected or deleted by its age and state |
| MembershipEvents.NoticeArrives | server/rpc.go:73-93 | after a notice its receiver lists the server it is about, stamped with the local time if it was new, and nothing else changes |
| MembershipEvents.FarewellArrives | server/rpc.go:224-238 | the named server is gone and every other entry stays |
| MembershipEvents.ReplyArrives | server/server.go:266-274 | a joiner takes over the first entry for each server it does not know, suspected or not |
| MembershipEvents.HeartbeatMovesClock | server/rpc.go:125-136 | over runs, the closed form of the clock after a heartbeat's whole list |
| MembershipEvents.HeartbeatMeetsKnown | server/rpc.go:156-166 | a listed server gets the highest counter, and is alive and fresh exactly if that is a rise |
| MembershipEvents.HeartbeatMeetsUnknown | server/rpc.go:139-149 | which servers a heartbeat brings in, and the whole entry each is recorded with |
| MembershipEvents.OwnCounterExact | server/server.go:145 | in every run a server's counter is one more than the heartbeats it has begun |
| Gossip.SoundInvariant | server/rpc.go:115-169 | in every reachable state and message Alive is the negation of Suspicion and every counter has been reached |
| Gossip.NeverListsItself | server/rpc.go:26-37 | no server's id is ever in its own membership list |
| Gossip.CountersNeverInvented | server/rpc.go:125-166 | every counter recorded, or sent in a heartbeat, a join reply or a notice, is at most its server's own |
| Gossip.HeartbeatIsNews | server/server.go:145-177 | the counter a heartbeat carries for its sender is above every one recorded for it or sent in any message before |
| Gossip.CountersNeverFall | server/rpc.go:156-160 | while an entry stays its counter does not fall |
| Gossip.DetectorNeedsTwoTimeouts | server/server.go:152-168 | over whole runs, from an admission or a risen counter to deletion by timeout more than one timeout passes, and more than two unless the entry was admitted under suspicion |
| Gossip.DetectorCompletes | server/server.go:152-168 | with a non-decreasing local clock, an entry from which nothing is heard is deleted after a scan a timeout later and another one a timeout after that |
| Gossip.SuspectDropped | server/server.go:162-166 | a suspected entry that is not heard again is deleted by a scan a timeout later, an inherited suspicion included |
| Gossip.InheritedSuspicionRun | server/server.go:266-274 | for any three servers there is a run in which a joiner inherits a suspected entry and deletes it after one timeout |
| Connections.CallPassesIff | server/server.go:58-62 | in every run a server can call another exactly when it lists it and the last connection command it was given about it is not a break, cached connections included |
| Connections.ListedIff | server/rpc.go:189-200 | in every run a server lists exactly those it was last told of rather than made to forget |
| Connections.ConnectionKept | server/rpc.go:300-304 | a connection stays open from a call until a break or until the entry is dropped |
| Connections.NoCallAcrossCut | server/rpc.go:205-222 | from a break until the server is told to create the connection again no call passes, whatever else happens and whoever starts |
| Connections.CreatedLasts | server/rpc.go:173-202 | once a connection is created and the other end's announcement is heard, calls pass until a break or until gossip drops the entry |
| Connections.LiveIffNotSevered | master.go:196-350 | once each command has been told to the ends the master picks, a call can pass exactly when the callee is listed and the last command naming the two servers, in either order, is not a break |
| Connections.IdsCommute | master.go:199-253 | the order in which a command names its ends does not change who is cut off from whom |
| Connections.UndirectedIff | server/server.go:58-62 | then the live edges are undirected exactly when servers not severed list each other or neither lists the other |

## Left out

- Floating point: versions are exact reals, so rounding and overflow of float64 and `math.Pow10` are not modelled.
- TCP dialing, RPC registration, process control, ports, logging and the ping and print handlers.
- Cached `rpcClient` handles in the store handlers: reduced to a set of members with a live connection; `Connections.dfy` models caching, blacklists and dialing on their own.
- Aliasing in the connection tables: the connection handlers are modelled on values, not on heap records.
- Data races on `serverMap` where its lock is released at once: a handler sees one consistent membership set.
- Wall-clock pacing of stabilize rounds and the master's timer: a round ends when every edge has delivered a snapshot taken in it.
- Failed pushes: a stabilize round assumes at least one successful push on each live edge; further ones may be lost.
- Several clock readings inside one handler: each membership handler reads the local clock once.
- Restarting a server under an id that was used before.
- Command parsing, the join retry loop and the spawning of servers and clients by the master.
- Client.ClientListener.PutKVClient: the client's connections are to servers that have started; a server that has died shows as a call without a connection.
- Connection commands about a client are told to the client alone: `Connections.dfy` gives them no event on the servers, and the client class has its own handlers for them.
