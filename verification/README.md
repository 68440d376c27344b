# A verified model of the game cluster

The repository is a cluster of game servers. A master owns a square world of moving users, split into a grid of
10 x 10 tiles; slaves show snapshots of it and pass on whatever changes it; a registry centre keeps the list of
servers, notices dead ones and elects a new master. This project models that behaviour in Dafny and proves what it
keeps, for every input, every iteration order of a hash map and every interleaving of steps.

## How it is organised

| files | subject |
|---|---|
| `Basic`, `MapTool`, `TagText` | values, the tile of a position, printed tile tags |
| `Tiles`, `WorldSpec`, `Cover` | tiles as a retiling of one flat table, the operations on values, the tiles a rectangle can touch |
| `World` | class `World`: the source's fields, updated in place, each method proved against `WorldSpec` |
| `Simulation`, `WorldTheorems` | the tiled world is a plain table of users with full scans, over any sequence of operations |
| `Conservation` | what a tick and an aoe do to population and money |
| `Snapshot` | publication and application of world snapshots |
| `Handler`, `Server` | one message at one server: as a function, and as the class that works in place |
| `Cluster`, `ClusterWorlds`, `Sessions`, `ClusterTheorems`, `Replies`, `Answers` | master and slaves as a step system: snapshot consistency, session conservation, reply routing, and what is answered |
| `Promotion` | a slave that becomes master, up to its first tick |
| `LoadBalance`, `Registry`, `RegistryProtocol`, `RegistryLiveness`, `SingleMaster`, `RegistryRaces` | load choice, class `AppContext`, registrations whose lock scopes interleave, who stays listed, exactly when there is a single master, and runs on which there is not |
| `Locks` | the three mutexes of a server: no circular wait |
| `Radix` | numbers as short texts and back |

Hash map iteration takes the next key arbitrarily (`Basic.NextKey`), so no contract depends on an order. A panic
(`unwrap`, `expect`, `panic!`) is a result value or a flag, never a precondition.

## What the code does differently from its comments

- The comments of `pos2map_tag` give the origin and the positive y axis to field A and the negative x axis to field
  C. The tags that `World::init` makes for the tiles there have other fields, so users on these half-axes have no
  tile. `MapTool.TiledExactly` says exactly which positions have one, `WorldTheorems.UntiledUserIsLost` what becomes
  of the users that have none, and the results about the naive world, population, money and sessions name the
  condition.
- Below and to the left of the square there is no clamp as there is above and to the right.
- A new user that replaces an older one of the same id in another tile leaves a copy there:
  `WorldTheorems.AddKeepsInvariantExactly`.
- `handle_msg_task` of the registry drops its lock between checking for a master and setting it, so "only one master
  node can exist" is false in general. `SingleMaster.AtMostOneOnRunsExactly` says exactly which steps must not come in
  between for at most the master to be listed as one and at most one election to be pending, at every point of a run.
  `SingleMaster.SingleMasterOnRunsExactly` does the same for the stronger invariant `OneMaster`, which also keeps the
  master listed and no rival on its way; elections and the balancer rely on that one. `RegistryRaces` has the runs.
- A node that answers its promotion after it has been dropped is listed without a state. Elections and the balancer
  stay sound, but no sweep finds this master dead unless a registration it had begun before lists it once more:
  `SingleMaster.StaysStatelessExactly`, `RegistryRaces.SecondRegistrationGivesState`.
- A promoted slave has tiles but no `users` before its first tick. Removals, changes of velocity and aoes handled then
  are confirmed and have no effect, and the monitor drops sessions without removing anybody. A removal or a change of
  velocity works exactly for the users that `users` locates in their tile (`Promotion.RemovalWorksExactly`,
  `Promotion.SetVelocityWorksExactly`), an aoe for casters in `users` (`Conservation.AoeExactly`).
- A request is never answered if its handler panics; `Replies.RequestsAreAnsweredExactly` says when that is.
- `get_load_banlance_connection` relies on a master existing whenever there are several nodes; during an election
  there is none and it panics (`Failed`).
- `snow_id.rs` is switched off in `main.rs`, and its `get_snow_id` returns a pair where its type says `u64`; only
  the two conversions are modelled.

## Model

| member | source | states |
|---|---|---|
| MapTool.TiledExactly | crates/common_server/src/map_tool.rs:27-83 | a position hits one of the hundred tiles iff it is not left of or below the square and not on the half-axes x = 0, y >= 0 and x < 0, y = 0 |
| MapTool.FieldNamesQuadrant | crates/common_server/src/map_tool.rs:66-82 | the letter of a tag names the quadrant of the position, half-axes included |
| MapTool.LenNamesStrip | crates/common_server/src/map_tool.rs:35-57 | the column (row) number is k iff the coordinate lies in strip k, for every k |
| MapTool.LenMonotone | crates/common_server/src/map_tool.rs:35-57 | column and row numbers grow with the coordinate, across zero, skipped 0 and cap |
| TagText.TagRoundTrip | crates/common_server/src/map_tool.rs:12-25 | parsing a printed tag gives it back iff its field is not ':' |
| TagText.PrintedPieces | crates/common_server/src/map_tool.rs:12-14 | a printed tag is field, column and row, in this order, between colons |
| Radix.DecimalTextsAgree | crates/common_server/src/map_tool.rs:13 | the numbers in it are the usual decimal texts |
| Basic.Shift | crates/common/src/basic.rs:110-136 | only the position changes, not at all without direction; otherwise it ends inside the square |
| Basic.ShiftFollowsVelocity | crates/common/src/basic.rs:115-118 | the displacement of a user that ends inside is parallel to its direction and its length is the direction's times speed and time, in the same sense |
| Basic.ShiftIsNearest | crates/common/src/basic.rs:115-131 | a moving user ends at the point of the square nearest to its target, along both axes |
| Cover.GetCoverMapByScope | crates/server/src/world.rs:472-565 | terminates and lists, without duplicates, exactly the grid tags between the columns and rows of the corners, for inverted scopes too |
| Cover.CoverContains | crates/server/src/world.rs:498-530 | the tile of every tiled point of the scope is covered |
| Cover.CoverExactly | crates/server/src/world.rs:498-530 | for a proper scope the covered tags are those of columns and rows it really meets |
| World.World.Init | crates/server/src/world.rs:147-216 | a new world has the hundred empty tiles and no users |
| World.World.Update | crates/server/src/world.rs:218-284 | for any iteration order a tick moves everyone once, ends in the tiles of the new positions, rebuilds `users` as their union, and no `unwrap` fails |
| World.World.ShiftUsers | crates/server/src/world.rs:231-253 | first loop: everyone is shifted within its old tile and exactly those who change tiles are listed, once each |
| World.World.ChangeMaps | crates/server/src/world.rs:256-266 | second loop: the listed users go from old to new tile (or nowhere), all others stay |
| World.World.CollectUsers | crates/server/src/world.rs:269-275 | `users` becomes the union of the tiles |
| World.CountPlaced | crates/server/src/world.rs:610-617 | the tile sizes add up to the number of users located in the tiles |
| World.World.UserCount | crates/server/src/world.rs:610-617 | the sum of the tile sizes modulo 2^32 |
| World.World.AddUser | crates/server/src/world.rs:293-307 | the user is in the tile of its position, if there is one, and in `users` in any case; on the flat table that is one insertion (`Simulation.AddSimulates`) |
| Simulation.AddSimulates | crates/server/src/world.rs:293-307 | adding a user is adding it to the flat table, unless an older copy stays behind in another tile |
| World.World.RemoveUser | crates/server/src/world.rs:309-327 | new state, or a panic that changes nothing when the position has no tile |
| World.World.RemoveUserByClientId | crates/server/src/world.rs:330-347 | the session ends in any case, the user is removed if there was one |
| World.World.SetVelocity | crates/server/src/world.rs:566-579 | both copies of the user get the velocity, nothing else changes |
| World.World.Aoe | crates/server/src/world.rs:349-388 | pays everybody in the circle but the caster; neither the missing-tile panic nor the `unwrap` can happen |
| World.World.QueryByCircleScope | crates/server/src/world.rs:389-421 | exactly the users of all tiles within the radius |
| World.World.Query | crates/server/src/world.rs:424-456 | for every scope each user in the closed rectangle exactly once and nobody else, as a full scan would find them |
| World.ScanTiles | crates/server/src/world.rs:431-443 | visiting distinct tags finds each user of their tiles in the rectangle exactly once |
| World.KeepCircle | crates/server/src/world.rs:406-420 | filtering the bounding square leaves exactly the circle |
| World.CoverSuffices | crates/server/src/world.rs:429-443 | no user of the rectangle is outside the covered tiles |
| World.World.SyncFromMaster | crates/server/src/world.rs:581-599 | every tile named by a key gets the users under it, others stay; panics iff a key does not parse |
| WorldSpec.DistanceTest | crates/server/src/world.rs:409-416 | comparing the square root with the radius is the squared comparison, also for negative radii |
| WorldSpec.CircleInBox | crates/server/src/world.rs:392-403 | the bounding square of the circle loses nobody |
| Tiles.TileInvIsRetiling | crates/server/src/world.rs:25-27 | tiles are well-formed iff they are the retiling of some table of users |
| Tiles.FlatRetile | crates/server/src/world.rs:25-27 | retiling a table and uniting the tiles gives exactly the users that have a tile |
| Simulation.InvariantIsRepresentation | crates/server/src/world.rs:25-27 | the world invariant holds iff the world stands for some flat table, and for only one |
| Simulation.StepSimulates | crates/server/src/world.rs:218-456 | each operation on the tiled world is one on the flat table, with the same answer |
| WorldTheorems.AddKeepsInvariantExactly | crates/server/src/world.rs:293-307 | adding a user keeps the invariant iff no older user of that id stays behind in another tile |
| WorldTheorems.ReplacedUserStaysBehind | crates/server/src/world.rs:293-307 | in every world, adding a user at (1,1) and another of the same id at (-1,-1) breaks it |
| WorldTheorems.RunSimulates | crates/server/src/world.rs:218-456 | over any sequence of operations the tiled world and the flat table give the same answers, positions unrestricted |
| WorldTheorems.StepIsNaiveExactly | crates/server/src/world.rs:218-456 | an operation does what it would do without tiles iff the removed user has a tile, nobody without one is in the rectangle or the circle, or everybody has one before and after the tick |
| WorldTheorems.NeverDiffersExactly | crates/server/src/world.rs:218-456 | over a whole sequence the tiled world never differs from naive scans iff every operation is such |
| WorldTheorems.TiledWorldIsNaiveWorld | crates/server/src/world.rs:218-456 | from a new world on, with fresh ids and every operation such, the answers are those of naive full scans and the invariant holds |
| WorldTheorems.TiledPositionsSuffice | crates/server/src/world.rs:218-456 | in particular if no position added or reached by a tick lacks a tile |
| WorldTheorems.UntiledUserIsLost | crates/server/src/world.rs:293-327 | a user added without a tile is never found, its removal panics, the next tick forgets it |
| WorldTheorems.NegativeAxisIsUntiled | crates/common_server/src/map_tool.rs:73-75 | the whole negative x axis has no tile |
| Conservation.TickExactly | crates/server/src/world.rs:218-284 | after a tick every user is in the tile of its shifted position and in `users`, or nowhere iff there is no such tile; the full invariant holds whatever `users` was before |
| Conservation.TickConserves | crates/server/src/world.rs:218-284 | population is kept iff everybody lands on a tile; total money is kept iff whoever does not has none |
| Conservation.TickLosesUser | crates/common_server/src/map_tool.rs:73-75 | in every world a user at (-1,-1) walking up one unit is lost by one tick, population and money with it |
| Conservation.AoeExactly | crates/server/src/world.rs:349-388 | exactly the users in the circle but the caster gain the money; the total grows by money times hits iff no account overflows |
| Conservation.PayTotalExactly | crates/server/src/world.rs:370-386 | the sum law of payments with u64 wrap-around |
| Snapshot.FromMaps | crates/server/src/distribute.rs:44-54 | every tile under its printed tag and no other key |
| Snapshot.UserCount | crates/server/src/distribute.rs:55-61 | the number of users over all tiles of a snapshot |
| Snapshot.SyncCopies | crates/server/src/world.rs:581-609 | applying a full snapshot reproduces all tiles of the master, whatever was there before |
| Snapshot.DtoIsInjective | crates/server/src/distribute.rs:44-54 | snapshot keys never collide: equal snapshots come from equal tiles |
| Server.Server.HandleMsg | crates/server/src/main_handle.rs:52-267 | node, channels and panic after any message are those of `Handler.Handle`, for master, slave and single server; what these must be is said by the rows of `Answers`, `Sessions` and `ClusterWorlds` |
| Server.Server.RemoveOfflineClient | crates/server/src/heartbeat.rs:42-86 | the session of a silent client ends; a master removes the user, a slave tells the master without naming a client |
| Server.Server.MonitorHeartbeats | crates/server/src/heartbeat.rs:18-37 | in any world: drops exactly the offline clients with their users and sets the connection count; a master panics iff one of these users is in `users` at a place without a tile, and what has been done by then is stated too |
| Server.SilentClientsLoseUsers | crates/server/src/heartbeat.rs:20-35 | a client whose last heartbeat is older than the limit loses session and user; everybody else stays in `users` unchanged |
| WorldSpec.DropOneMore | crates/server/src/world.rs:309-327 | removing users one by one in any order is removing them at once; the first stuck one panics and changes nothing |
| Server.SweepSimulates | crates/server/src/heartbeat.rs:18-37 | on a world that stands for a table the sweep takes the clients' users out of the table |
| Server.RemovalsCounted | crates/server/src/heartbeat.rs:20-31 | a slave sends as many removals as there are offline clients with a session |
| Server.RemovalsComplete | crates/server/src/heartbeat.rs:63-77 | each offline client with a session is announced to the master |
| Server.Server.ConvertSelfToMaster | crates/server/src/distribute.rs:181-204 | only the role changes, and the registry gets one answer |
| Server.Server.WorldUpdate | crates/server/src/server_run.rs:224-273 | a master ticks and publishes the tiles of that tick, a slave leaves its world alone |
| Cluster.SlaveEffect | crates/server/src/main_handle.rs:67-239 | a slave answers a client message itself or forwards one message that carries the asking client, never both, and keeps its world |
| Cluster.RouteKept | crates/server/src/distribute.rs:384-416 | in every interleaving a request is in at most one place, on its way, on its way back or answered, with slave and client unchanged |
| Replies.StepUnderway | crates/server/src/main_handle.rs:139-206 | a step leaves a client's request underway or answered, or puts a new one underway, iff its handler does not panic on it |
| Replies.RequestsAreAnsweredExactly | crates/server/src/main_handle.rs:139-206 | at any point of any run a client's request is on its way, on its way back or answered iff no handler has panicked on it: a slave on a logout without session, the master on a removal of a user without a tile |
| Replies.LogoutWithoutSessionIsLost | crates/server/src/main_handle.rs:146 | such a logout is nowhere afterwards |
| Answers.MasterAnswersAsker | crates/server/src/main_handle.rs:77-261 | a master sends exactly one answer, to the peer that asked and with the body of that operation, unless it panics |
| Answers.SlaveSendsDue | crates/server/src/main_handle.rs:77-282 | a slave answers a client itself as it should, or sends the master a message that is due that very answer |
| Answers.ForwardingIsTransparent | crates/server/src/main_handle.rs:104-119 | handling the forwarded message changes the world as if the master had the slave's sessions and the client had asked it |
| Answers.DeliveriesAnswerRequests | crates/server/src/distribute.rs:384-416 | in every reachable state each delivery carries the answer to what that client asked that slave under that ticket: new id or already logged in, deleted, aoe done, velocity set, or the full scan of the slave's tiles then |
| ClusterWorlds.HandleIsWorldStep | crates/server/src/main_handle.rs:77-206 | whatever a master does for a message is one operation of the world |
| ClusterWorlds.SnapshotsKept | crates/server/src/distribute.rs:209-228 | under any delay, reordering, repetition or loss a slave shows its first tiles or one whole snapshot |
| Promotion.StepKeepsTilesExactly | crates/server/src/world.rs:218-456 | whatever `users` holds, an operation keeps the tiles well-formed iff it does not add a user whose older copy stays in another tile |
| Promotion.PromotionRestoresInv | crates/server/src/distribute.rs:181-204 | after any such operations the first tick of a promoted slave cannot fail and restores the full invariant |
| Promotion.RemovalWorksExactly | crates/server/src/world.rs:309-326 | with well-formed tiles and any `users`, a removal takes a user out of its tile iff `users` locates it there, and panics iff `users` has it where there is no tile |
| Promotion.RemovalBeforeTickExactly | crates/server/src/world.rs:269-326 | whoever is removed is back after the tick iff `users` did not locate it and it lands on a tile |
| Promotion.SetVelocityWorksExactly | crates/server/src/world.rs:566-579 | a change of velocity reaches the moving copy of a user iff `users` locates it |
| Promotion.RequestIsLostBeforeTick | crates/server/src/main_handle.rs:156-239 | removal, logout, change of velocity and aoe of a user missing in `users` are confirmed and change nothing |
| Promotion.PromotedSlaveLosesRequests | crates/server/src/distribute.rs:181-204 | in every reachable state, right after the promotion of any slave, every such request is lost |
| Promotion.LogoutAfterPromotionIsLost | crates/server/src/distribute.rs:181-204 | a whole run from an empty cluster: the user that logged out after the promotion is back after the tick |
| ClusterWorlds.NoUsersKept | crates/server/src/world.rs:27 | no step ever fills the `users` of a slave |
| Sessions.SessionsAreUnremovedIds | crates/server/src/main_handle.rs:139-156 | whatever the order of handling, the sessions of a slave are the ids it made up whose removal is neither on the way nor handled |
| Sessions.ConservedExactly | crates/server/src/main_handle.rs:78-206 | a change of sessions, messages or world keeps the conservation law iff it is clean |
| ClusterTheorems.StepMoves | crates/server/src/main_handle.rs:52-267 | every step of a cluster is one of the session moves |
| ClusterTheorems.ReachableInv | crates/server/src/distribute.rs:209-228 | roles, routing, the master's world invariant, snapshot consistency, empty `users` of slaves and session bookkeeping hold in every reachable state |
| ClusterTheorems.StepConservesExactly | crates/server/src/main_handle.rs:78-206 | the sessions of each slave are its users on the master plus queued additions minus queued removals; a step keeps this iff no removal overtakes an addition or fails and no tick drops such a user |
| ClusterTheorems.ConservedOnRunsExactly | crates/server/src/heartbeat.rs:42-86 | from an empty cluster on no session is lost or invented at any point of a run iff every step is clean |
| ClusterTheorems.DrainedCluster | crates/server/src/main_handle.rs:78-206 | with nothing on the way the slaves' users on the master are the disjoint union of their sessions |
| ClusterTheorems.OvertakingLeavesUser | crates/server/src/main_handle.rs:139-156 | a login and a logout whose messages are handled in the other order leave the user on the master without a session |
| Replies.RepliesReachTheAsker | crates/server/src/distribute.rs:384-416 | everything sent to a client answers a message this client sent to this slave, and none is answered twice |
| ClusterTheorems.SlavesLagBehindTheMaster | crates/server/src/distribute.rs:209-228 | a slave shows the tiles of the master at one earlier point of the run, and its answers are full scans of them |
| LoadBalance.GetMinLoadNode | crates/registry_center/src/handler.rs:96-135 | the chosen node has the lowest load of all states, among those the most room, among those the fewest connections; it panics only if a node has no state, and always if no node has one |
| LoadBalance.GetLoadBalanceConnection | crates/registry_center/src/handler.rs:45-89 | with several nodes and a master, who may lack a state, it never fails, and returns another node, with lowest load, then most room, then fewest connections, iff one of them has load below 1 |
| LoadBalance.BetterIsAnOrder | crates/registry_center/src/handler.rs:111-131 | the comparison is a strict total order on reported states |
| LoadBalance.KeyReadsBack | crates/common/src/node.rs:24-26 | a node's key is its address, a colon and its main port, and can be read back |
| LoadBalance.KeyNamesServer | crates/common/src/node.rs:23-26 | two keys are equal iff address and main port are |
| Registry.AppContext.Register | crates/registry_center/src/zmq_handler.rs:30-97 | new registry and answer of an uninterrupted registration, refusals included |
| Registry.RegistrationAnswer | crates/registry_center/src/zmq_handler.rs:30-95 | which of the four answers a registration gets, and that only a successful one changes anything, and what |
| Registry.AppContext.Report | crates/registry_center/src/zmq_handler.rs:99-133 | a known node's state is replaced, an unknown one is ignored |
| Registry.AppContext.ConvertToMasterResp | crates/registry_center/src/zmq_handler.rs:134-143 | the answering node becomes the master and is listed |
| Registry.AppContext.MonitorHeartbeats | crates/registry_center/src/server_keeping.rs:34-79 | exactly the dead nodes go; an election follows iff the master has been silent for more than 5000 milliseconds; it never panics and elects soundly if only the master can be without a state |
| Registry.AppContext.ElectMaster | crates/registry_center/src/server_keeping.rs:81-136 | when states, list and peers agree: no panic, one command to a least loaded survivor, one announcement to each other, nothing else |
| Registry.ElectionReachesAll | crates/registry_center/src/server_keeping.rs:88-131 | the candidate has the lowest load, then the most room, then the fewest connections; it alone is commanded, each other node is told once of it, and nobody else is told anything |
| RegistryLiveness.ReportKeepsListedExactly | crates/registry_center/src/zmq_handler.rs:109-111 | after a report a sweep keeps the node iff its clock shows at most 5000 more than the report's time, and then with the reported load |
| RegistryLiveness.RegistrationKeepsListedExactly | crates/registry_center/src/zmq_handler.rs:75-87 | the same after a registration, with load 0.9 |
| RegistryLiveness.StaysListedExactly | crates/registry_center/src/server_keeping.rs:40-67 | on every run from a registration on, lock scopes interleaved: the node is listed at every point, with its last reported load, iff no sweep comes more than 5000 milliseconds after it was last heard from |
| RegistryLiveness.FreshSlaveIsOffered | crates/common/src/node.rs:50-59 | a slave that has just registered has room, so the balancer has an answer |
| RegistryProtocol.UninterruptedRegistration | crates/registry_center/src/zmq_handler.rs:31-95 | the four lock scopes in a row are the registration of class `AppContext` |
| RegistryProtocol.ChainKept | crates/registry_center/src/zmq_handler.rs:58-87 | one step of any interleaving keeps states within list within peers, and the master listed or about to be |
| RegistryProtocol.ChainOnRuns | crates/registry_center/src/zmq_handler.rs:31-143 | the same after every sequence of interleaved lock scopes |
| RegistryProtocol.ReachableChain | crates/registry_center/src/zmq_handler.rs:31-143 | so from an empty registry on in every reachable state |
| RegistryProtocol.MonitorIsSweep | crates/registry_center/src/server_keeping.rs:34-79 | what class `AppContext` does in a round with an election is a sweep step of the protocol, with a candidate iff somebody survives |
| SingleMaster.AtMostOneExactly | crates/registry_center/src/zmq_handler.rs:31-143 | every lock scope and every other step keeps at most one election and at most the master listed as one, iff it passes its guard |
| SingleMaster.AtMostOneOnRunsExactly | crates/registry_center/src/zmq_handler.rs:31-143 | from an empty registry on that holds at every point of a run iff every step passes its guard |
| SingleMaster.OneMasterExactly | crates/registry_center/src/zmq_handler.rs:31-143 | the same iff for the stronger `OneMaster`: no election beside a master, claims on their way are the master, and the master's own entry stays |
| SingleMaster.SingleMasterOnRunsExactly | crates/registry_center/src/zmq_handler.rs:31-143 | from an empty registry on `OneMaster` holds at every point of a run iff every step is guarded |
| SingleMaster.MasterIsUnique | crates/registry_center/src/zmq_handler.rs:48-58 | then two nodes listed as masters are one, it is the master, and no election is pending |
| SingleMaster.SingleMasterExactly | crates/registry_center/src/zmq_handler.rs:46-73 | with uninterrupted registrations the guards come down to one: no new master registers during an election |
| SingleMaster.SingleMasterOnRuns | crates/registry_center/src/server_keeping.rs:63-76 | a single master and sound elections on every run without such a registration |
| SingleMaster.ElectionsAreSound | crates/registry_center/src/server_keeping.rs:63-101 | on every guarded run the registry stays ready for elections, so that `Registry.AppContext.MonitorHeartbeats` never panics and elects soundly |
| SingleMaster.BalancerNeverFails | crates/registry_center/src/handler.rs:64-89 | on every guarded run, whenever there is a master, the balancer has what it needs in order not to fail |
| SingleMaster.AllHaveStateExactly | crates/registry_center/src/zmq_handler.rs:138-142 | every listed node keeps a state iff no answer comes from a node that has been dropped |
| RegistryRaces.LateAnswerLosesState | crates/registry_center/src/zmq_handler.rs:134-143 | a run on which a dropped node answers late and becomes a master without a state |
| SingleMaster.StatelessStepExactly | crates/registry_center/src/server_keeping.rs:40-67 | a guarded step leaves a listed master without a state as it is iff it does not list that node again |
| SingleMaster.StaysStatelessExactly | crates/registry_center/src/server_keeping.rs:40-67 | on a guarded run it stays so, with no election pending, at every point iff no registration lists it again |
| SingleMaster.StatelessMasterStays | crates/registry_center/src/server_keeping.rs:40-67 | with uninterrupted registrations and no rival it therefore stays for ever |
| RegistryRaces.SecondRegistrationGivesState | crates/registry_center/src/zmq_handler.rs:48-87 | a guarded run on which a registration begun before the late answer gives the master its state back |
| RegistryRaces.SplitLocksAllowTwoMasters | crates/registry_center/src/zmq_handler.rs:48-59 | two masters that check before either sets are both accepted |
| RegistryRaces.DeadMasterIsListedAgain | crates/registry_center/src/zmq_handler.rs:58-79 | a master that registers twice at once and dies in between is listed as a master that is not the master |
| RegistryRaces.SlaveReplacesMaster | crates/registry_center/src/zmq_handler.rs:63-79 | a slave cleared under an older master takes the entry of the new one |
| RegistryRaces.SlaveReplacesMasterUnseen | crates/registry_center/src/zmq_handler.rs:63-79 | that run keeps the plain property and breaks only the stronger one |
| RegistryRaces.RivalMeansTwoMasters | crates/registry_center/src/zmq_handler.rs:134-143 | a master that registers during an election is joined by the elected one |
| RegistryRaces.RivalMeansTwoElections | crates/registry_center/src/server_keeping.rs:69-105 | or, if that master dies first, two elections are pending |
| Locks.EveryTaskIsOrdered | crates/server/src/heartbeat.rs:18-56 | every task takes heartbeat map, context and world in this order, for any number of offline clients |
| Locks.NoDeadlock | crates/server/src/server_run.rs:225-250 | in every reachable state no circle of mutex waits, and some unfinished task can go on |
| Radix.RoundTripExactly | crates/server/src/snow_id.rs:9-38 | for any radix from 2 on, decoding the text of n gives n iff every digit is below 64, and something smaller otherwise |
| Radix.RoundTrip | crates/server/src/snow_id.rs:9-38 | for every u64 and radix 2 to 64 the decoder gives the number back |
| Radix.BaseNTo10 | crates/server/src/snow_id.rs:29-38 | the loop computes the positional value modulo 2^128 |
| Radix.TextIsCanonical | crates/server/src/snow_id.rs:9-21 | digits below the radix, no leading zero unless n = 0, and radix^(k-1) <= n < radix^k for length k |
| Radix.CanonicalRoundTrip | crates/server/src/snow_id.rs:9-38 | decoding a canonical text and encoding the number gives the text again |
| Radix.Alphabet | crates/server/src/snow_id.rs:1 | the digit characters are those of the source, in its order |

## Left out

- World.World.Query: asks for well-formed tiles, which `ClusterTheorems.ReachableInv` gives in every reachable state; so do the tick, `World.World.Aoe` and `Server.Server.HandleMsg`.
- World.World.Aoe: a debug build panics where the u64 sum overflows; the wrap-around of a release build is modelled.
- World.World.UserCount: `load_factor` and `avg_update_delay` of the state information are not modelled, nor are the delay queue and the sleeping of the world loop.
- Server.Server.HandleMsg: there is one flag for being a slave; a single-mode server configured as a slave is not modelled.
- Server.Server.WorldUpdate: the publication carries the tiles of the very tick, because the context lock is held throughout and handlers need it.
- LoadBalance.GetLoadBalanceConnection: the three lock scopes are taken as one snapshot.
- Registry.AppContext.Register: a registration without content does nothing and is not modelled.
- SingleMaster.ElectionsAreSound: which survivor a sweep chooses is open there; `Registry.AppContext.ElectMaster` says which.
- ClusterTheorems.ReachableInv: clients are assumed not to send AddUser and DelUser (`Cluster.FromClient`), which are meant between servers; the source handles both from anyone, and so does `Server.Server.HandleMsg`.
- Radix.BaseNTo10: a text is a sequence of ASCII characters; for others the source counts bytes but reads characters, and a debug build panics where u128 overflows.
- f32 rounding, NaN and signed zero: coordinates, velocities and loads are real numbers.
- The side of a tile is the constant 200000 that `World::init` sets; i64 user ids are an abstract type, as they are only compared.
- Aliasing: users and tables are values, because Rust owns them by value; each class holds its maps as fields that its methods reassign.
- `start_position` and `end_position` of a tile (only printed) and `vertex_get_user_by_scope` (unused).
- Sockets, the capacity of channels, JSON and bincode, configuration, HTTP routes, process exit and tracing: messages are values, a channel is what has been sent on it.
- The clock, random positions and id generation: parameters, with a new user's id assumed fresh where a result needs it.
- `ChangeMaster` on a slave is a todo in the source; a cluster that goes on under a promoted slave is not modelled, only the promotion, the promoted world and what it does up to its first tick.
- Election liveness: a candidate that dies before it answers is never replaced, and "several nodes imply a master" is false during an election.
- The client crate, the `operation` crate and the message constructors.
