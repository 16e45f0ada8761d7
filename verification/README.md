# R-Type networking, modelled and proved in Dafny

R-Type is a co-operative shooter. An authoritative server moves the ships, shots and enemies and tells
its clients over UDP what has become of them. Each client moves its own ship at once, before the server
has spoken, and corrects itself on every snapshot. Rooms, hosts and chat go over TCP. This project
models the code that makes that work and proves what it keeps, over all inputs and over whole runs.

`dafny verify dfyconfig.toml` checks everything (Dafny 4.11).

## How it is built

What the original updates in place is a class here, with its fields and its loops: `Game` and `Outbox`
(GameServer), `RTypeClient` (Client), `RingBuffer`, `ServerManager`, `TcpClient` (TcpRequests),
`ChatClient` and `ChatServer`; the two ends of the sync packet, of the configuration file and of a TCP
connection are methods with loops. Each method is proved against a function on values, and the theorems
are about those functions.

| files | what they hold |
|---|---|
| `Protocol`, `World` | typed packets; what each critical section of the game loop does and queues |
| `Collisions`, `BossRun`, `Lifecycle` | the world over whole runs: greedy matching, boss fight, entity ids and lifetimes |
| `Contact`, `GameRules`, `Controls` | what the sections and the events of a game come to, in points, numbers and fields |
| `Mirror`, `Replication` | the client's picture of the entities, and why it is the server's |
| `Gaps`, `LossWindow`, `Players`, `Wire` | loss counters, the sliding window, a player's inputs, who is sent what |
| `StateStream` | a player's state packets, from the server's counter through buffer and network to the loss meter |
| `Prediction`, `PlayerSync` | the predicting client by itself, and with its server, on good networks and bad ones |
| `Screen` | what a client shows after any packets: other players, score, boss, end of the game |
| `GameServer`, `Client`, `Session`, `PredictedSession` | the two objects, updated in place, and both together |
| `Basics` | small notions used throughout |
| `Bytes`, `SyncCodec`, `RingBuffer`, `UdpPipeline` | the UDP layer: bytes, truncation, queue, threads |
| `Lobby`, `ServerManager`, `LobbyServer`, `TcpRequests` | rooms, hosts and requests over TCP |
| `Chat`, `ChatRelay` | chat framing and relaying |
| `ConfigManager` | printing and parsing of the configuration file |

A `Section` of `World` is one stretch of code that holds the entity mutex and queues packets before it
lets go. Sections are atomic and are the steps of every run; shots come in from the network thread
between any two of them. Two places read or decide outside the lock and then act under it (whether a
boss is due, and where it is when it shoots); they are still one section, because only the game thread
changes what they read and a shot that comes between only appends to the list.

## What is assumed

- `x` is an integer, because every horizontal velocity is one; `y` is a real, without rounding. Game time
  is an integer number of milliseconds, 16 per update. The sine, the random enemy height, the wall clock
  (is an enemy due? is a sync?) and the keys held down are parameters, so the theorems hold for any.
- In `PlayerSync` the handling of an input is taken apart: the acknowledged tick is raised under the player mutex,
  the four flags then move the player without it, and a broadcast, which holds the mutex, reads x and y one after
  the other. In the class `Game` one call handles an input as a whole.
- Ticks, ids and clocks do not wrap at 32 bits. The one wrap that happens in practice, that of the loss
  window's cutoff during the first five seconds, is modelled.
- The server acknowledges only ticks that were issued, or 0. The theorems on prediction hold for every first tick;
  those that need it to be at least 1 say so.
- Every client has a UDP address of its own.
- A thread that increments the player counter loads it and stores it; nothing else is assumed of two connections
  that come at the same time. Where a theorem on rooms needs ids to be unique, it says that no load falls between
  another thread's load and store (`Serial`).
- The room table and the games in it are read by the UDP thread without the server mutex; each datagram is taken
  here as one step.

## What came out

- **The server counts losses that are none.** The hello packet has tick 0 and the first real one the server's
  clock, so a client that loses nothing starts with that many lost inputs, less one (`HelloCountsAsLoss`).
- **Late is counted as lost.** The counts are exact if and only if nothing arrives late (`ExactIffNothingLate`); 1, 3, 2
  counts one loss (`LateCountsAsLost`).
- **A sync of more than 72 entities makes a true picture false**, unless every entity past the 72nd has an id
  the client takes for its own (`SyncExact`, `OverfullSyncForgets`). What it leaves out stays missing until it is
  destroyed or a later sync names it (`PictureButLacking`).
- **Two players can be given the same id.** The server increments its player counter in one thread per connection
  and without a lock (Src/Network/TCPServer.cpp:123). Ids are unique if and only if no load of it falls between another
  thread's load and store (`IdsUniqueIff`); otherwise one id can come to be in two rooms, and exactly when is
  `SplitIff`; the datagrams of both players then go to the first room (`RaceInTwoRooms`).
- **Stale snapshots are not filtered.** The shown position is right if and only if what the client has forgotten and
  the last snapshot lacks adds up to what that snapshot contains twice (`ExactIff`); a snapshot that overtakes another
  misplaces the player (`StaleSnapshotMisplaces`).
- **A lost input is forgotten.** The acknowledged tick is the highest handled, so the client drops an earlier input that
  never arrived (`LostInputMisplaces`); one that arrives twice is handled twice (`RepeatedInputMisplaces`).
- **Snapshots can be torn.** One that is read between the raise of the acknowledged tick and the last flag
  acknowledges an input that is not in the position yet (`TornSnapshotMisplaces`). With inputs and snapshots in order and no
  input lost, the position is right if and only if the last one lacked nothing (`ExactInOrder`).
- **A client with first tick 0 can lose its first input.** It does if and only if that input moves the player and a
  snapshot that knows of no input comes after it and is the last one so far (`FirstTickZero`,
  `FirstTickZeroLosesInput`).
- **The second boss does not wait.** A comment at Src/Server/Game.cpp:346 says 30 seconds; the code spawns it in
  the update in which the first one dies (`NoCooldown`). The code is what is modelled.
- **A second process thread could crash the server**: the emptiness test and the pop lock separately, and an empty
  pop can be dereferenced if and only if there are at least two such threads (`CrashIffTwoConsumers`).
- **While a room request is polled for, only room lists are skipped.** Any other message ahead of the answer ends
  the request and, unless it is an error or has no body, leaves the stream in the middle of a message
  (`OnlyRoomListsDrain`).
- A header comment says that status 0 of a join means success (Include/Network/Protocole/ProtocoleTCP.hpp:152);
  both ends use 1. The code is what is modelled.

## Model

| member | source | states |
|---|---|---|
| Collisions.GreedyMatching | Src/Server/Game.cpp:480-516 | The projectile phase only adds marks; its strikes form a matching that uses each shot once and each ordinary enemy once; new marks on shots number new marks on enemies plus boss hits; the boss loses exactly the damage of the shots that hit it; afterwards no live shot overlaps a live target |
| Collisions.CollisionsResolved | Src/Server/Game.cpp:476-530 | After the player phase an entity is marked exactly if it was before or is a hazard that touches a player, and the whole section leaves no live colliding pair |
| Contact.OverlapMeets | Src/Server/Game.cpp:469-474 | For rectangles of positive size, the collision test holds if and only if some real point lies strictly inside both |
| Contact.ReachableShaped | Src/Server/Game.cpp:154-235 | In every reachable state every entity has the height and the width of its kind |
| Contact.NoContactLeft | Src/Server/Game.cpp:476-530 | After the collision section of any reachable state no live shot (type 1 or 4) has a point in common with a live target (2, 3 or 10), and no player's 60 by 30 box with a live hazard (2, 3 or 11) |
| Contact.OnlyContactMarks | Src/Server/Game.cpp:476-530 | Whatever the section newly marks, a boss apart, has a point in common with what may mark it: a shot with a target, an enemy with a shot, a hazard with a player |
| Controls.NobodyInContact | Src/Server/Game.cpp:518-529 | The same for the players of a game, by their coordinates |
| GameRules.DamageRule | Src/Server/Game.cpp:491-492 | In a collision section the boss loses 10 for each plain shot that strikes it, 50 for each charged one, and nothing else |
| GameRules.HealthRule | Src/Server/Game.cpp:494-500 | A collision section tells only of the boss: last the health it then has, first its most, 2000 at level 3 and 1000 otherwise; if it tells nothing, the health is what it was |
| BossRun.BossBetweenUpdates | Src/Server/Game.cpp:328-377 | In every reachable state between updates the level is 0, 1, 3 or 4, there is one live boss at 1 and 3 and none otherwise, health is positive exactly then, is a multiple of 10 and at least -40, and victory has taken 60 to 300 boss hits |
| BossRun.ActKeeps | Src/Server/Game.cpp:328-423 | Every section, and a shot between any two, keeps the joint invariant of level, health, number of hits, live boss, boss track and cooldown, and never lowers the level |
| BossRun.LevelNeverFalls | Src/Server/Game.cpp:500-510 | Along any run the boss level never falls |
| BossRun.BossLeavesOnlyDead | Src/Server/Game.cpp:246-254 | A boss stays at even x between 1500 and 1600 and leaves the list exactly when it has been marked dead |
| BossRun.NoCooldown | Src/Server/Game.cpp:346-352 | Whatever shots come in between, the second boss appears in the very update in which the first one dies |
| GameRules.FirstBossAfterTenSeconds | Src/Server/Game.cpp:340-345 | Between updates the first boss has come if and only if more than ten seconds have been played |
| GameRules.BossRule | Src/Server/Game.cpp:337-377 | Exactly when a boss is due, the level rises by one, a boss with its health appears at (1600, 400) and all are told of both |
| GameRules.BossFireRule | Src/Server/Game.cpp:379-423 | Exactly when the first boss in the list has waited its time, 1500 ms at level 1 and 1000 at level 3, it fires one shot, or three spread by 5, each 80 below it and to the left at speed 15, and all are told |
| GameRules.FireRate | Src/Server/Game.cpp:396-399 | Over any run, two volleys are more than 1500 ms apart at level 1 and more than 1000 ms at level 3 |
| GameRules.SteerRule | Src/Server/Game.cpp:272-294 | Who moves how at what time: the boss comes in at speed 2 and then weaves, the second one further and faster; enemies weave after a minute; nothing else of any entity changes |
| GameRules.ClockRule | Src/Server/Game.cpp:328-335 | The game's clock shows 16 ms for every update of a run |
| GameRules.MoveRule | Src/Server/Game.cpp:241-269 | Each entity moves by its velocity; it is destroyed if it was marked or is off the screen, else it stays, and the packet about it says so |
| GameRules.ShotRule | Src/Server/Game.cpp:154-200 | A shot appears 25 in front of its player with the next id, plain at speed 10 or charged at 12, and is announced |
| GameRules.EnemyRule | Src/Server/Game.cpp:202-235 | An enemy appears at the right edge, slow up to 30 seconds and fast after them, and is announced |
| Lifecycle.MoveConserves | Src/Server/Game.cpp:237-270 | The erase loop keeps or destroys every entity, each exactly once, and announces none |
| Lifecycle.SectionConserves | Src/Server/Game.cpp:154-270 | In every section the ids destroyed and the ids still live balance those that were live and those announced |
| Lifecycle.IdsConserved | Src/Server/Game.cpp:160-162 | Over any run the announced ids are 1, 2, 3, ... and destroyed and live ids together are exactly those, each once |
| Lifecycle.NoIdTwice | Src/Server/Game.cpp:246-254 | No id is destroyed twice or reused, and live ids are distinct and below the counter |
| Lifecycle.AllOnCourse | Src/Server/Game.cpp:241-284 | In every reachable state every entity is where its kind and its age allow |
| Lifecycle.LifetimeBound | Src/Server/Game.cpp:243-254 | An entity that is not a boss is gone 389 updates after its spawn, whatever the players do |
| Mirror.LoadLooksUp | Src/Client/RTypeClient.cpp:361-366 | Loading a sync gives each id named in it its record and leaves every other id as it was |
| Mirror.BelowApply | Src/Client/RTypeClient.cpp:301-371 | Two pictures that agree below id 9999 still agree there after any packet |
| Replication.SectionMirrors | Src/Server/Game.cpp:237-325 | The packets that a section queues turn a true picture of the list before it into a true picture of the list after it, unless it is a sync that leaves out an id below 9999 |
| Replication.NextRefines | Src/Client/RTypeClient.cpp:301-371 | One step of server or channel, any sync included, keeps the picture after the packets in flight equal to the server's list without exactly the ids that are lacking |
| Replication.PictureButLacking | Src/Client/RTypeClient.cpp:301-371 | Without loss and with syncs of any size, in every state of every run from agreement, the packets in flight lead the client to the server's entities without exactly those that a sync has left out and that have since been neither destroyed nor named by a later sync; the picture is true if and only if there are none |
| Replication.ReplicationRefines | Src/Client/RTypeClient.cpp:301-371 | Without loss, and if every entity past the 72nd at a sync has a local id, every state of every run from agreement has it that the packets in flight lead the client to exactly the server's entities; with nothing in flight the picture is the list |
| Replication.SyncLooksUp | Src/Client/RTypeClient.cpp:350-371 | After a sync the client holds exactly the records that fitted and its own ids from 9999 on |
| Replication.SyncExact | Src/Server/Game.cpp:299-318 | A sync keeps a true picture true if and only if every entity past the 72nd has an id of at least 9999 |
| Replication.OverfullSyncForgets | Src/Server/Game.cpp:301-305 | A run of the game loop, with 73 shots between the steps of one update, after which the sync that is next makes a true picture false |
| Replication.SyncHealsIff | Src/Client/RTypeClient.cpp:350-371 | From any picture whatever, a sync brings the client into agreement on every id below 9999 if and only if every entity past the 72nd has a local id |
| Replication.SelfStabilises | Src/Server/Game.cpp:296-326 | From any picture, after any losses, one delivered sync that leaves out no id below 9999, and then lossless delivery with such syncs, keep client and server in agreement on every id below 9999 |
| Wire.InboxOfHistory | Src/Server/Game.cpp:320-325 | A player whose address is known and its own is sent exactly the packets of the sections, in order, whoever else comes and goes |
| Wire.StateTells | Src/Server/Game.cpp:62-80 | A broadcast has, for each player with a known address and in order, one state packet with that player's id, the number of this packet, its acknowledged tick, x and y |
| Wire.StateOfWhom | Src/Server/Game.cpp:66-76 | There are no other state packets, and no other addresses in the book |
| StateStream.NextTracked | Src/Server/Game.cpp:65-79 | Each step of game, buffer, network and client keeps every own state queued so far either on its way, in order, or received, or lost, once |
| StateStream.StatesNumbered | Src/Server/Game.cpp:65-79 | Over every run, with inputs handled, addresses learnt and players coming and going, the states of a player are queued for its client with consecutive numbers |
| StateStream.LossesEndToEnd | Src/Client/RTypeClient.cpp:257-268 | Over every run, the LOST events the client has recorded are exactly the own states that the full outgoing buffer of 1024 refused or the network dropped between the first and the last one received |
| Gaps.Accounting | Src/Server/Game.cpp:35-48 | For any arrivals the highest number is the maximum, the received count is that of the strict running maxima, received and lost add up to the span, and lost is what never came plus what came late |
| Gaps.ExactIffNothingLate | Src/Server/Game.cpp:39-49 | The loss count is the number of missing numbers if and only if nothing arrived late |
| Gaps.LateCountsAsLost | Src/Server/Game.cpp:39-49 | Ticks 1, 3, 2 count one loss although none is missing |
| Gaps.HelloCountsAsLoss | Src/Client/RTypeClient.cpp:16-27 | A client that loses nothing is charged with one loss less than its first tick |
| Players.InputAccounting | Src/Server/Game.cpp:34-49 | For any arrivals of a player's inputs the server's counters add up, and are exact if and only if nothing came late |
| Players.OrderIrrelevant | Src/Server/Game.cpp:54-57 | Two arrivals of the same inputs in different order leave the player in the same place |
| Players.HandlesAsPredicted | Src/Server/Game.cpp:27-60 | A new player that handles what arrives, the hello included wherever it comes in, stands where the server of the prediction theorems stands between two inputs |
| Prediction.DropIsFilter | Src/Client/RTypeClient.cpp:284-286 | Popping acknowledged inputs from the front of the deque removes exactly the acknowledged ones |
| Prediction.ReconciledOnAnyNetwork | Src/Client/RTypeClient.cpp:225-290 | With loss, duplication and reordering, pending is exactly the non-empty inputs issued above the greatest acknowledgement, in order of tick, and the player is at the last snapshot plus their replay |
| PlayerSync.DoCoherent | Src/Server/Game.cpp:51-57 | Each step of key, handler, broadcast and network, which may lose, repeat and reorder inputs and snapshots, keeps acknowledgements, positions and what these lack of each other in step, between any two flag tests |
| PlayerSync.HandlerCompletes | Src/Server/Game.cpp:52-57 | Between two inputs the server is where handling each input that has arrived as a whole takes it |
| PlayerSync.HandledAll | Src/Server/Game.cpp:52-57 | Whatever inputs arrive, the server acknowledges the highest tick among them and has moved by the sum of them all |
| PlayerSync.Balance | Src/Server/Game.cpp:52-57 | For any arrivals of inputs issued, all inputs and those taken again move a player as far as the inputs taken and those lost or still on their way |
| PlayerSync.ExactIff | Src/Client/RTypeClient.cpp:282-290 | For every first tick, inputs lost, repeated and reordered, and snapshots lost, repeated, reordered and torn, the shown position is the start plus every input ever issued, once, if and only if the inputs forgotten that the last snapshot lacks, and what it lacks of the one it was read in, add up to the inputs it contains twice |
| PlayerSync.ExactInOrder | Src/Client/RTypeClient.cpp:282-290 | With inputs and snapshots in order, inputs not lost and a first tick of at least 1, that is so if and only if the last snapshot lacked nothing of the input it was read in |
| PlayerSync.ExactPrediction | Src/Client/RTypeClient.cpp:225-290 | If, besides, no snapshot that arrives was read in the middle of an input, the shown position is always the start plus every input ever issued, so a snapshot never moves the player shown |
| PlayerSync.FirstTickZero | Src/Client/RTypeClient.cpp:284-286 | With first tick 0, inputs not lost, and inputs and snapshots in order, the position is right if and only if the last snapshot lacked nothing and knew of an input, or came before the first one, or that one does not move the player |
| PlayerSync.FirstTickZeroLosesInput | Src/Client/RTypeClient.cpp:284-286 | A run with first tick 0 in which a snapshot drops an input that nobody has handled |
| PlayerSync.StaleSnapshotMisplaces | Src/Client/RTypeClient.cpp:282-286 | A run in which a snapshot that has been overtaken takes the player back |
| PlayerSync.TornSnapshotMisplaces | Src/Server/Game.cpp:52-57 | A run in which a snapshot acknowledges an input that has not moved the player yet |
| PlayerSync.LostInputMisplaces | Src/Client/RTypeClient.cpp:284-286 | A run in which the first of two inputs is lost and the acknowledgement of the second makes the client forget both |
| PlayerSync.RepeatedInputMisplaces | Src/Server/Game.cpp:52-57 | A run in which one input arrives twice and moves the player twice |
| PredictedSession.StateOfTaken | Src/Server/Game.cpp:67-74 | The state packet of a player who has handled any inputs since joining carries the highest of their ticks and the start plus their sum |
| PredictedSession.Play | Src/Client/RTypeClient.cpp:225-290 | A game object and a client object over a lossless, ordered network: for every sequence of presses, arrivals, other players' inputs, updates and deliveries, the client holds its player exactly if a state of it has been delivered, and then shows it at the start plus the sum of everything it has sent |
| LossWindow.WindowIsRecentHistory | Src/Client/RTypeClient.cpp:257-273 | After each own snapshot the deque is the whole history filtered to the last five seconds and to what was recorded after the clock's first five seconds, and is empty during those |
| LossWindow.LossIsPercentage | Src/Client/RTypeClient.cpp:275-280 | The reported loss is between 0 and 100 |
| LossWindow.LossIsShare | Src/Client/RTypeClient.cpp:270-280 | After any run of arrivals, the reported loss times the number of recent events is 100 times the number of those marked lost; it is 0 exactly if none is, 100 exactly if all are |
| LossWindow.EventsSpanSequences | Src/Client/RTypeClient.cpp:257-268 | Whatever the order of arrival, the events recorded number the span from the first to the highest sequence number |
| GameServer.Outbox.QueueMessage | Src/Network/UDPServer.cpp:160-171 | A message is queued behind the others with its address |
| GameServer.Game.constructor | Src/Server/Game.cpp:14-18 | A new game is in its lobby, with nobody, nothing, and no boss yet |
| GameServer.Game.AddPlayer | Src/Server/Game.cpp:20-25 | The new player joins last |
| GameServer.Game.GetPlayer | Src/Server/Game.cpp:107-115 | Finds the first player with an id, or none |
| GameServer.Game.UpdatePlayerUdpAddr | Src/Server/Game.cpp:82-94 | Only the first address of a player is taken |
| GameServer.Game.SetPlayerLastProcessedTick | Src/Server/Game.cpp:96-105 | The acknowledged tick only rises |
| GameServer.Game.GetHostId | Src/Server/Game.cpp:143-147 | The host is the first player, 0 if there is none |
| GameServer.Game.RemovePlayerFromLobby | Src/Server/Game.cpp:457-467 | Exactly the player with this id goes, the others keep their order |
| GameServer.Game.DisconnectPlayer | Src/Server/Game.cpp:436-455 | The player goes and each remaining one with an address is told |
| GameServer.Game.KickPlayer | Src/Server/Game.cpp:532-565 | The kicked player is told first, then goes, then the remaining ones are told |
| GameServer.Game.HandlePlayerInput | Src/Server/Game.cpp:27-60 | The in-place handler is the function that Controls.InputRule and UnknownInputRule state field by field: counters, acknowledgement, position, shots and what is queued |
| Controls.InputRule | Src/Server/Game.cpp:27-60 | For a known player: the moved position by the four directions, the tick, then a plain shot from there exactly if PRESSED and a charged one exactly if HOLD, with the next ids, and exactly their announcements to every address; nothing else of the game changes |
| Controls.UnknownInputRule | Src/Server/Game.cpp:29-32 | An unknown player's input changes nothing and tells nobody anything |
| Controls.JoinRule | Src/Server/Game.cpp:20-25 | A player joins last, at (400, 225), with no address, nothing handled and no state sent |
| Controls.QuitRule | Src/Server/Game.cpp:436-455 | Exactly the player with the id goes, and everybody who stays and has an address is told so once, and nothing else |
| Controls.KickRule | Src/Server/Game.cpp:532-565 | A kick is that, after a message to the kicked player itself if its address is known |
| GameServer.Game.CountInput | Src/Server/Game.cpp:35-48 | The in-place counters are those of module Gaps |
| GameServer.Game.MovePlayer | Src/Server/Game.cpp:54-57 | Four flag tests move the player by the displacement of the packet |
| GameServer.Game.CreatePlayerShot | Src/Server/Game.cpp:154-176 | A shot joins the list with a new id and is announced to all |
| GameServer.Game.CreatePlayerChargedShot | Src/Server/Game.cpp:178-200 | The same for a charged shot |
| GameServer.Game.CreateEnemy | Src/Server/Game.cpp:202-235 | The same for an enemy, of the fast kind after 30 seconds |
| GameServer.Game.UpdateEntities | Src/Server/Game.cpp:237-270 | The section moves and filters the list, and tells each player of each prior entity once |
| GameServer.Game.MoveAndErase | Src/Server/Game.cpp:241-269 | The in-place erase loop is move-then-filter in order, with one packet per prior entity and player |
| GameServer.Game.HandleCollision | Src/Server/Game.cpp:476-530 | The two nested in-place loops are the collision section that Contact.NoContactLeft and Contact.OnlyContactMarks state in points |
| GameServer.Game.FireAllShots | Src/Server/Game.cpp:480-516 | The projectile loops compute the greedy matching that Collisions.GreedyMatching speaks of, and announce each boss hit |
| GameServer.Game.FireShot | Src/Server/Game.cpp:482-515 | One shot strikes the first live target that it overlaps, or none |
| GameServer.Game.StrikeTarget | Src/Server/Game.cpp:486-513 | One strike: marks, damage, and the change of level when the boss dies |
| GameServer.Game.MarkRammed | Src/Server/Game.cpp:518-529 | The player loops mark exactly the hazards that touch some player |
| GameServer.Game.BroadcastGameState | Src/Server/Game.cpp:62-80 | The state packets that Wire.StateTells states field by field go to all addressed players, and each number rises by one |
| GameServer.Game.UpdateGameLevel | Src/Server/Game.cpp:272-294 | Time advances, and bosses and late enemies are steered by it |
| GameServer.Game.SpawnBossIfDue | Src/Server/Game.cpp:337-377 | A boss that is due joins the list with full health and is announced player by player |
| GameServer.Game.BossShoot | Src/Server/Game.cpp:379-423 | A boss that may shoot fires one shot, or three at level 3, from where it is |
| GameServer.Game.SendGlobalStateSync | Src/Server/Game.cpp:296-326 | All entities go to all players; nothing changes |
| GameServer.Game.Update | Src/Server/Game.cpp:328-434 | One update is the fixed sequence of sections, with the broadcast between them, and queues exactly their packets; in the lobby it does nothing |
| Client.RTypeClient.constructor | Src/Client/RTypeClient.cpp:12-28 | The client starts at the server's clock and says hello with tick 0 |
| Client.RTypeClient.ApplyInput | Src/Client/RTypeClient.cpp:159-166 | The own player, if there is one, moves by the displacement of the input |
| Client.RTypeClient.HandleInput | Src/Client/RTypeClient.cpp:195-229 | An input takes the next tick, is sent, and is applied and kept exactly if it is not empty |
| Client.RTypeClient.Acknowledge | Src/Client/RTypeClient.cpp:284-286 | The pop loop drops the acknowledged front |
| Client.RTypeClient.Replay | Src/Client/RTypeClient.cpp:288-290 | The replay loop adds the displacement of all that is pending |
| Client.RTypeClient.RecordArrival | Src/Client/RTypeClient.cpp:255-280 | The in-place deque, counter and percentage are the meter of module LossWindow, and the percentage times the events is 100 times those marked lost |
| Client.RTypeClient.OnPlayerState | Src/Client/RTypeClient.cpp:249-299 | An own snapshot reconciles and is metered, another player's only moves that player, and after death own ones are ignored |
| Client.RTypeClient.OnGlobalStateSync | Src/Client/RTypeClient.cpp:346-371 | The picture becomes the client's own ids overlaid with the records |
| Client.RTypeClient.OnEntityDestroy | Src/Client/RTypeClient.cpp:314-325 | The entity goes, for 50 or 100 points if it was an enemy |
| Client.RTypeClient.OnPacket | Src/Client/RTypeClient.cpp:249-382 | Each packet changes all that is shown as module Screen says; only an own snapshot before death touches prediction and meter, only an own disconnect takes the own player away |
| Client.RTypeClient.Update | Src/Client/RTypeClient.cpp:245-383 | The receive loop leads to what module Screen says of the whole sequence of packets |
| Screen.OthersShown | Src/Client/RTypeClient.cpp:291-338 | After any packets, another player is shown if and only if a state of it has come and no disconnect of it since |
| Screen.OthersPlaced | Src/Client/RTypeClient.cpp:291-298 | It is shown where its last state has it, with the vertical change from the state before, or 0 if there was none since it last left |
| Screen.ScoreCounts | Src/Client/RTypeClient.cpp:314-325 | After any packets the score has risen by 50 for each destroy of a type 2 entity in the picture and 100 for each of type 3, and by nothing else |
| Screen.BossShown | Src/Client/RTypeClient.cpp:378-382 | The health shown of the boss is that of the last packet about it |
| Screen.StatusShown | Src/Client/RTypeClient.cpp:327-376 | The game is over, or the player kicked, by the last packet that says so, and goes on if there is none |
| Session.RunMirrors | Src/Server/Game.cpp:237-326 | The packets of any run of sections lead a true picture to a true picture |
| Session.UpdateAndDeliver | Src/Server/Game.cpp:328-434 | One update of a game object, delivered to a client object whose picture is true, leaves it true |
| Session.UpdateIsLegal | Src/Server/Game.cpp:328-434 | The sections of an update follow one another as the runs of the theorems allow, from between updates to between updates |
| Protocol.FlagsOfMask | Include/Network/Protocole/ProtocoleUDP.hpp:37-44 | The six flags survive their packing into a byte, which is 0 exactly when none is set |
| Protocol.BitsOfMask | Include/Network/Protocole/ProtocoleUDP.hpp:37-44 | Which flag has which bit |
| SyncCodec.RecordRoundTrip | Src/Server/Game.cpp:314-318 | A packed 14-byte record decodes to the entity it was made from |
| SyncCodec.Layout | Src/Server/Game.cpp:299-318 | Where type, count, ids, types and coordinates stand in the bytes of a sync |
| SyncCodec.CodecRoundTrip | Src/Server/Game.cpp:299-318 | Encoding any list, cutting at 1024 bytes, zero-padding and decoding gives the first 72 entities in order, or all of them if fewer |
| SyncCodec.QueueRaw | Src/Network/UDPServer.cpp:160-171 | A longer message is cut to 1024 bytes |
| SyncCodec.ReceiveSync | Src/Client/RTypeClient.cpp:346-371 | The decoding loop ends for every claimed count and loads exactly the records within the buffer |
| SyncCodec.SyncOverTheWire | Src/Network/UDPServer.cpp:160-171 | What a client makes of the bytes of a sync is what module Mirror says of the sync |
| RingBuffers.RingBuffer.constructor | Include/Network/RingBuffer.hpp:31-31 | The buffer starts empty |
| RingBuffers.PushItems | Include/Network/RingBuffer.hpp:39-48 | On head, tail and count, a push adds to the end of the queue unless every slot is taken |
| RingBuffers.PopItems | Include/Network/RingBuffer.hpp:54-63 | On head, tail and count, a pop takes the oldest item, if there is one |
| RingBuffers.RingBuffer.Push | Include/Network/RingBuffer.hpp:39-48 | On the array in place, an item joins the end of the queue unless it is full |
| RingBuffers.RingBuffer.Pop | Include/Network/RingBuffer.hpp:54-63 | On the array in place, the oldest item comes out, nothing if there is none |
| RingBuffers.RingBuffer.IsEmpty | Include/Network/RingBuffer.hpp:69-72 | Whether the queue is empty |
| RingBuffers.RingBuffer.IsFull | Include/Network/RingBuffer.hpp:78-81 | Whether the queue is full |
| RingBuffers.RingBuffer.Count | Include/Network/RingBuffer.hpp:87-90 | The length of the queue |
| UdpPipeline.NextFlows | Src/Network/UDPServer.cpp:79-151 | Each step of either thread keeps the accounting of packets |
| UdpPipeline.PipelineFlows | Src/Network/UDPServer.cpp:79-151 | Under every interleaving of the receive and the process thread the accepted packets are those processed, the one in hand and those in the slots from tail to head, in order; each received one is accepted, dropped or about to be offered; and no empty pop is dereferenced |
| UdpPipeline.CrashIffTwoConsumers | Src/Network/UDPServer.cpp:145-149 | An empty pop can be dereferenced if and only if there are at least two process threads |
| Lobby.NextOrderly | Src/Server/ServerManager.cpp:66-174 | Every event but a load between another thread's load and store keeps the books: ids are unique, members of a room are those who joined it and have not gone, in order, and nobody is in the books of two rooms |
| Lobby.IdsUniqueIff | Src/Network/TCPServer.cpp:123-130 | In every reachable state the connections have different ids if and only if no load of the player counter has fallen between another thread's load and store |
| Lobby.SplitIff | Src/Network/TCPServer.cpp:123-194 | In every reachable state, some continuation in which nobody connects brings a player into two rooms if and only if it is in two already, or two connections that can still join share an id, or one that can has the id of a member of a room |
| Lobby.RaceInTwoRooms | Src/Network/TCPServer.cpp:107-123 | The shortest race: two connections at once get one id and end in two rooms, and the datagrams of both go to the first |
| Lobby.OneRoomEach | Src/Server/ServerManager.cpp:69-86 | In every run without such an overlap a player is at all times in at most one room, and its datagrams are routed there |
| Lobby.HostJoinedFirst | Src/Server/Game.cpp:143-147 | In every run without such an overlap the host is the earliest-joined remaining member |
| Lobby.OnlyHostStarts | Src/Server/ServerManager.cpp:166-174 | In every run, a room starts playing only by a request under the id of its host at that moment |
| Lobby.HostStarts | Src/Server/ServerManager.cpp:166-174 | In every run, the request of a room's host does start it |
| Lobby.JoinTakesIn | Src/Server/ServerManager.cpp:115-124 | In every run, a join makes its player the last member exactly if the room is there and not playing, and changes no other room |
| Lobby.LeaveTakesOut | Src/Server/ServerManager.cpp:78-88 | In every run without such an overlap, a disconnect datagram or a kick takes its player out of every room and nobody else out of any |
| Lobby.PlayingForGood | Src/Server/ServerManager.cpp:115-124 | In every run, a playing room never returns to its lobby and its membership only shrinks |
| ServerManagers.ServerManager.constructor | Src/Server/ServerManager.cpp:99-104 | There are no rooms at first |
| ServerManagers.ServerManager.OnCreateRoom | Src/Server/ServerManager.cpp:99-104 | A new empty room in its lobby has the next id, and no other room changes |
| ServerManagers.ServerManager.OnGetRooms | Src/Server/ServerManager.cpp:106-113 | The rooms with the number of their players, in order of ids |
| ServerManagers.ServerManager.OnJoinRoom | Src/Server/ServerManager.cpp:115-124 | A player enters a room, as its last member, exactly if it exists and is not playing |
| ServerManagers.ServerManager.IsGameStarting | Src/Server/ServerManager.cpp:138-145 | Whether the room exists and plays |
| ServerManagers.ServerManager.OnPlayerDisconnect | Src/Server/ServerManager.cpp:147-153 | The player leaves that room, and nothing else of any game changes |
| ServerManagers.ServerManager.OnStartGame | Src/Server/ServerManager.cpp:166-174 | The room plays if its host asks; nothing else changes |
| ServerManagers.ServerManager.OnDisconnectDatagram | Src/Server/ServerManager.cpp:78-88 | The player leaves the first room it is found in, those who stay are told, and nothing else of any game changes |
| ServerManagers.ServerManager.Kick | Src/Server/ServerManager.cpp:245-255 | The same for a kick from the shell, where the player is told first |
| ServerManagers.ServerManager.OnInputDatagram | Src/Server/ServerManager.cpp:66-77 | An input changes the player and the world of the one game that has the player and queues exactly its packets; nothing of any other game changes, and no membership or status |
| LobbyServer.HandleRequest | Src/Network/TCPServer.cpp:144-198 | One request: its answer in bytes and its effect on the rooms |
| LobbyServer.ListAnswer | Src/Network/TCPServer.cpp:152-166 | The answer to a list request in bytes: how many rooms, and of each in order its id, how many are in it, and 4 as the most |
| LobbyServer.OthersIgnored | Src/Network/TCPServer.cpp:195-197 | Any other byte is skipped |
| LobbyServer.HandleClient | Src/Network/TCPServer.cpp:143-199 | The request loop answers each request in turn, until the stream ends or the one join |
| LobbyServer.CreateAnswered | Src/Network/TCPServer.cpp:152-172 | After any number of unread room lists, and whatever other connections do between the requests, a client's polls give it exactly the id of the room that the server has made |
| LobbyServer.JoinAnswered | Src/Network/TCPServer.cpp:173-194 | Likewise, they say yes exactly when the room then exists and is not playing, and the client has been entered |
| TcpRequests.TcpClient.CreateRoom | Src/Network/TCPClient.cpp:130-215 | Request state, stream and result after each call, on every branch |
| TcpRequests.TcpClient.JoinRoom | Src/Network/TCPClient.cpp:217-303 | The same for joining; the result is yes exactly for status 1 |
| TcpRequests.RequestBegins | Src/Network/TCPClient.cpp:130-163 | The first call sends the request and waits, or fails and can be made again |
| TcpRequests.TcpClient.DrainRoomList | Src/Network/TCPClient.cpp:194-199 | A stray list is skipped by its own count |
| TcpRequests.AnswerIsFound | Src/Network/TCPClient.cpp:146-209 | For every schedule of arrivals and any number of stray lists, each poll that finds something takes one message, and the result is the server's answer with the stream left at the next message |
| TcpRequests.OnlyRoomListsDrain | Src/Network/TCPClient.cpp:165-209 | For every message ahead of the answer: whether the poll goes on waiting, what it returns, and exactly when the stream stays aligned |
| Chat.ChatClient.SendChatMessage | Src/Network/TCPClient.cpp:430-446 | A message goes out as one frame, whose length field has 16 bits |
| Chat.ChatClient.ReceiveChatMessages | Src/Network/TCPClient.cpp:448-477 | The loop takes from what has come in exactly the complete frames, skipping stray bytes, and leaves the rest |
| Chat.Resumes | Src/Network/TCPClient.cpp:452-473 | For any stream cut anywhere, reading in two calls is reading in one |
| Chat.ChunkingIrrelevant | Src/Network/TCPClient.cpp:448-477 | For any stream in any pieces, what the calls returned and what is left make up what one call would return |
| Chat.CallTakesComplete | Src/Network/TCPClient.cpp:452-473 | One call returns every message that has come in completely and leaves the first that has not |
| Chat.ChatInOrder | Src/Network/TCPClient.cpp:448-477 | In any pieces, the messages returned so far are the first ones sent, each once and in order, and all of them once all has come in |
| Chat.ExactIffShort | Src/Network/TCPClient.cpp:434-440 | Exactly the messages sent come out if and only if each is shorter than 65536 bytes |
| ChatRelay.ChatServer.Relay | Src/Network/TCPServer.cpp:256-274 | One frame with the sender's name goes to everybody else in the room and to nobody besides |
| ChatRelay.ChatServer.HandleInRoomClient | Src/Network/TCPServer.cpp:213-278 | From a member's whole stream the others are written exactly its non-empty messages, in order |
| ChatRelay.SpokenFrames | Src/Network/TCPServer.cpp:247-254 | The server hears exactly the non-empty messages that a client sends |
| ChatRelay.NextFaithful | Src/Network/TCPServer.cpp:126-278 | Whoever enters or leaves and whichever member's thread takes its next request, what each has said and has still to say make up what it sent, the tables say who is in which room under which name, and what is written to each connection is what its player hears |
| ChatRelay.RoomHears | Src/Network/TCPServer.cpp:179-278 | Over every run, with players entering and leaving between the turns of the threads, the log holds, for each player, its first non-empty messages in order, and all once its stream is read; and a player is shown exactly what the others say in its room while it is there, each under the name of who said it, if and only if each message fits a frame together with that name |
| ChatRelay.HeardIsSaid | Src/Network/TCPServer.cpp:256-274 | What a player hears are exactly the messages others say in its room while it is there, in order, each as name, colon, space and text |
| ChatRelay.SeatIff | Src/Network/TCPServer.cpp:179-193 | A player is in a room under a name if and only if it entered it under that name and has not left since |
| ConfigManagers.SaveConfig | Src/Client/ConfigManager.cpp:6-17 | The file written, line by line |
| ConfigManagers.LineOfKey | Src/Client/ConfigManager.cpp:13-16 | The file starts with the line of the username, and every key has a line of its own |
| ConfigManagers.DefaultKeys | Src/Client/ConfigManager.cpp:20-27 | Without a file the keys are W, S, A, D and the space bar |
| ConfigManagers.LoadConfig | Src/Client/ConfigManager.cpp:19-48 | The configuration read from any file, or the defaults without one |
| ConfigManagers.StoiDecimal | Src/Client/ConfigManager.cpp:43-43 | Every 32-bit number, negative ones included, is read back as it was printed |
| ConfigManagers.StoiReads | Src/Client/ConfigManager.cpp:43-43 | A number is read after any white space, with any sign, up to the first character that is no digit |
| ConfigManagers.RoundTripIff | Src/Client/ConfigManager.cpp:6-48 | A saved configuration is read back, over the defaults, if and only if its username has no newline and its keys have no '=' and no newline and are not "username" |
| ConfigManagers.LoadedSurvives | Src/Client/ConfigManager.cpp:6-48 | Whatever is in a file, the configuration loaded from it survives being saved and loaded again |

## Left out

- PlayerSync.ExactPrediction: does not cover lost, repeated or reordered inputs, reordered or torn snapshots or a first tick of 0, where it is false; PlayerSync.ExactIff says exactly when the position is right then.
- Lobby.OneRoomEach: does not cover runs in which two threads take an id at once, where it is false; Lobby.IdsUniqueIff and Lobby.SplitIff say what happens there.
- Replication.ReplicationRefines: does not cover syncs that leave out an id below 9999, where it is false; Replication.PictureButLacking says for any sync what the picture then lacks.
- Lobby.SplitIff: does not cover continuations with new connections, which can always take one id twice; Lobby.IdsUniqueIff is about those.
- ChatRelay.RoomHears: does not cover two connections with one id, nor the answers to lobby-state requests on the same connections.
- PredictedSession.Play: does not cover loss or reordering, a first tick of 0, or inputs handled in the middle of a broadcast; PlayerSync.ExactIff does.
- GameServer.Outbox.QueueMessage: does not model the outgoing ring buffer being full, nor the cut at 1024 bytes; its log is what is offered, the buffer that may refuse it is in module StateStream and the cut in module SyncCodec.
- GameServer.Game.HandlePlayerInput: does not model a broadcast or a removal of the player between its steps, which take the player mutex one by one; module PlayerSync takes acknowledgement, moves and broadcasts apart, but not a removal in between.
- GameServer.Game.Update: does not model the inputs that the network thread handles between its sections; the runs of sections in modules World, BossRun, Lifecycle and Replication do.
- Client.RTypeClient.OnPacket: does not model PONG, which only sets the displayed round-trip time, nor the length tests, which no packet of this server fails.
- ServerManagers.ServerManager.Kick: does not model the closing of the TCP socket, which is the event HangUp of module Lobby.
- GameServer.Game.UpdateEntities: does not model the unlocked reads of the player list in the destroy branch, nor the order in which the mutexes are taken.
- ConfigManagers.SaveConfig: does not model a file that cannot be opened for writing.
- ChatRelay.ChatServer.HandleInRoomClient: does not model the answers to lobby-state requests, which go to the same connections as the chat, nor other members' threads in between, nor members coming and going; ChatRelay.RoomHears allows for both of these.
- TcpRequests.TcpClient.CreateRoom: does not model a request that is only partly written, nor running out of memory on a room list that claims too many rooms.
- LobbyServer.HandleClient: does not model the handshake before the loop, other connections being served between two requests, nor more than 2^31 rooms; LobbyServer.CreateAnswered and LobbyServer.JoinAnswered do allow for the others.
- `getRooms` and `getLobbyState` of the TCP client: the first may read from a socket that would block, the second takes chat bytes for unknown messages; both misalign the stream, and the theorems on requests and chat assume that they do not run in between.
- Rendering, menus, key handling, the charge timer, the client's own collision test, explosions, sounds: user interface.
- Sockets, thread start and stop, shell parsing, logging, error paths of the network library: plumbing; channels and byte sequences stand for them.
- Rounding of floats, the motion of the sine and the random numbers: parameters or exact numbers.
- Usernames in the game, ping and pong, score over time, the displayed loss text, the limit of four players (only reported, never enforced): easy or not used.
- The sending thread of the UDP server, which pops like the processing thread but tests what it popped.
- Room deletion keeps the books here, but a deleted game's players keep their TCP connections; what such a connection can still do is limited to what the room table allows.
