# EndlessPeakServer: a verified model

EndlessPeakServer is a WebSocket server for a 2D game. Clients connect, a game
thread moves every player over a tile map in ticks, and the server broadcasts the
result. This project models that server in Dafny and proves, for all inputs, all
runs and all interleavings, what its parts are for:

- **No player ever enters a solid tile.** `SweptMath`, `Collision`, `Physics`,
  `Border`, `WorldState`, `Runs` and `Witnesses` take the swept box test, the broad phase over the
  grid, the X-then-Y move and the tick. The broad phase loses nothing against a scan
  of every tile, exactly for the velocities named by `CoveredExactly`; the sweep finds the greatest collision-free time; every point of every
  path of every run is free, at any speed; inside a closed ring of tiles players stay
  inside and every conversion from double to an unsigned integer is defined; the ground
  flag means exact contact; a jump rises at most 7964 dt. `Motion` adds the other half: every
  leg of every move goes all the way, or up to the face of a tile in the way.
- **Every client sees the world.** `Replication` folds the packets that are addressed
  to one client and obtains, at the end of every tick, the world's own map, also for
  clients that join late. `Encoding`, `Joins` and `Delivery` take this down to the bytes: encoded,
  routed, sent by interleaved threads, cut by the network, reassembled, decoded and folded. It
  works exactly as long as nobody joins next to more than four others; `Crowd` has the run in
  which somebody does. `Told` says who hears what and how often, from the inputs alone.
- **The game loop does what the functions say.** `World` holds the players, the level and
  the queues as objects that methods update in place, each proved against the functions.
- **Packets survive the wire.** `Wire`, `Spawn` and `Framing` take the byte stack, the
  spawn packet, the flat buffers and the reassembly of frames from arbitrary reads; `Layout`
  gives the messages byte by byte and `Pieces` the streams, including headers that are refused.
- **Sending is safe under concurrency, with one exact exception.** `SendProtocol` runs
  any number of threads through `PushToSend`, `Send` and the write completions, and shows
  that they come to rest. `Steps` says what an execution of atomic steps is.
- **Queues and sessions keep their order.** `Queues`, `Lifecycle`, and in place `Server`; every
  lost connection is removed, and nothing else is.
- **The parts fit together.** `Inbound` says exactly when what the server queues is fit
  for the world, which looks players up without a check. `System` interleaves the network
  threads with the game thread and shows that the ticks of the whole server are a run of
  the world, so that the theorems about runs hold of the server.

## How it is modelled

- A `double` is a Dafny `real`: the theorems are about exact arithmetic, not about
  rounding, signed zero or NaN. The infinities of a still axis are constructors of
  `ExtReal`. On the wire a double is its 64-bit pattern.
- `std::set<size_t>` is the strictly increasing sequence of its elements, which is the
  order in which the code iterates. A `std::unordered_map` is a map, and every loop over
  it takes the elements in an arbitrary order.
- The clamp of the broad phase is taken in whole numbers. The code converts a double to
  `size_t` first, which C++ leaves undefined for negative values;
  `Runs.RunStaysContained` proves that this does not happen on a bordered map with ticks of at
  most tile / 390.2 (a take-off of 400 dt loses 9.8 dt to gravity in the same tick),
  `Border.BoundsNonNegative` says exactly when a bound is negative, and
  `Witnesses.TickLimitExactly` shows that no greater limit would do, for any tile size.
- `grid_y` is 16 bits wide in the configuration but 8 bits wide where the collision code
  receives it; a valid level has at most 255 rows. Tile, width and height are positive bytes.
- The world looks a player up before it knows the opcode, with an operator that stores a
  null player under an unknown id, and dereferences it later or not at all. The model keeps
  those null players: `WorldState.NullsAfter` says where they are, and `InputsSafe` is the
  code's own demand, that no null player is dereferenced while a tick is processed: a
  steering opcode uses the player of its id, a creation those of all other ids, and the
  physics at the end of the tick all of them. `Inbound.QueueIsSafeUnlessOrphaned` says
  exactly when the server's queue meets that demand wherever the ticks cut it, and
  `Inbound.CutIsSafeExactly` when it does for the ticks at hand. Nothing keeps
  a client from sending the opcodes of a creation or a removal, so those count like the
  server's own: `Inbound.ClientRemovalIsReachable` shows a client that removes its own
  player and goes on sending.
- The tick length `dt` is an arbitrary positive number, a parameter of each tick; the
  network is an arbitrary choice of chunks and of completions.
- The client is not part of this repository. `Replication.Applied` says what each message
  means to a client, `Encoding.Decode` how it reads one, and both are specification. The
  client is given the payload limit of the shared protocol, which the server's own sessions
  apply to what they read.
- The bit pattern of a double is a parameter (`Encoding.Doubles`); numbers that are sent must
  be representable and ids must have 64 bits. That sizes have 8 bits follows from the configuration.
- A comment at src/net/session/session.cpp:183 says that the empty `TryPop` never
  happens. It can: `SendProtocol.EmptyPopIsReachable` gives the interleaving, for any two
  buffers, and `SendProtocol.EmptyPopExactly` the exact condition.

Verify with `dafny verify dfyconfig.toml`.

## Model

| member | source | states |
|---|---|---|
| SweptMath.SweptIsSafe | src/game/physics/swept_math.cpp:27-99 | for any velocity and boxes that start disjoint: interiors stay disjoint up to the entry time, on all of [0,1] without a hit; at a hit the closed boxes touch |
| SweptMath.HitIsFirstContact | src/game/physics/swept_math.cpp:73-99 | a hit is reported if and only if the contact of the boxes, watched over all time, begins in [0,1], and the entry time is its beginning |
| SweptMath.NormalNamesTheFace | src/game/physics/swept_math.cpp:103-114 | a hit has exactly one non-zero normal and it names the two faces that coincide at the entry time |
| SweptMath.CornerHitIsVertical | src/game/physics/swept_math.cpp:101-114 | the normal is vertical if and only if the leading horizontal face arrives at the entry time, so also when both axes are entered at once |
| SweptMath.OneAxisHitWouldPenetrate | src/game/physics/swept_math.cpp:73-99 | along one axis, going on beyond the entry time of a hit overlaps the other box at once |
| Collision.IndexOfCell | src/game/physics/collision.cpp:88-94 | the index of a cell on the grid is in range and gives back its column and row |
| Collision.CellOfIndex | src/game/physics/collision.cpp:88-94 | every index in range is the index of exactly one cell |
| Collision.FindCollisionIndices | src/game/physics/collision.cpp:45-97 | the result is strictly increasing and holds exactly the cells of the clamped rectangle, none for zero velocity |
| Collision.CandidatesMeetTheSweep | src/game/physics/collision.cpp:70-94 | a cell is a candidate if and only if it meets, on both axes, the smallest closed rectangle around the start and the end of the box |
| Collision.SweptAxis | src/game/physics/collision.cpp:11-43 | the loop over the ordered candidates equals a scan of every tile of the map, for every velocity along one axis or towards smaller coordinates on both |
| Collision.OutsiderIsLate | src/game/physics/collision.cpp:70-82 | a cell outside the floor rectangle offers no contact before time 1 to such a move |
| Collision.BroadPhaseIsExact | src/game/physics/collision.cpp:70-94 | candidates and brute force give the same entry time, hit flag and normals for every such velocity |
| Collision.UncoveredDisagrees | src/game/physics/collision.cpp:45-97 | for every other velocity there is a level and a free box on which they differ: a tile touched at a corner lies just outside the rectangle |
| Collision.CoveredExactly | src/game/physics/collision.cpp:45-97 | candidates equal brute force on every level and from every free start if and only if at most one axis moves or both move towards smaller coordinates; the world moves one axis at a time |
| Collision.ScanIsMinimum | src/game/physics/collision.cpp:26-38 | the running best is the minimum over the solid tiles, attained by one of them on a hit, and a contact at exactly 1 is no hit |
| Collision.FirstOfTheEarliest | src/game/physics/collision.cpp:26-38 | of several solid tiles met at the same time the one with the lowest index is reported |
| Collision.SweptIsGreatestFreeTime | src/game/physics/collision.cpp:16-42 | from a free start the result is the greatest t in [0,1] with the box free throughout [0,t]; a hit exactly when t < 1 |
| Collision.NeverPassesX | src/game/physics/collision.cpp:11-43 | a horizontal move of any speed ends on the near side of every solid tile in its way |
| Collision.NeverPassesY | src/game/physics/collision.cpp:11-43 | the same for vertical moves |
| Physics.MoveNeverPenetrates | src/game/world/world.cpp:164-212 | a move that starts free is free at every point of its horizontal and then vertical path and at its end |
| Physics.GroundAfterY | src/game/world/world.cpp:190-211 | the ground flag is set if and only if the vertical sweep hit and was downward or stopped at time 0; then vertical velocity is 0 and a tile is in exact contact |
| Physics.TickKeepsGround | src/game/world/world.cpp:150-212 | every tick keeps: on ground implies zero vertical velocity and exact contact; it is a floor unless an upward sweep stopped at time 0 |
| Physics.TickWalks | src/game/world/world.cpp:129-136 | a tick never moves a player to the other side than its last walking input asked for, nor further than that input; how far it does move is `Motion.TickGoesFar` |
| Physics.FlightBound | src/game/world/world.cpp:107-156 | flight invariant: k ticks after take-off the speed is at least (9.8k - 400) dt and the rise at most the sum of (400 - 9.8j) dt |
| Physics.JumpHeight | src/game/world/world.cpp:107-156 | between accepted jumps a player never rises more than 7964 dt, whatever it hits |
| Physics.UnhinderedFlight | src/game/world/world.cpp:137-156 | a flight that hits nothing is exactly 7964 dt high after forty ticks |
| Motion.MovedXGoesFar | src/game/world/world.cpp:170-187 | the horizontal leg covers its whole velocity if the way is free, and otherwise ends short of that with its leading face on the face of a solid tile beside it; the velocity is cleared in that case only |
| Motion.MovedYGoesFar | src/game/world/world.cpp:189-211 | the same for the vertical leg, downward and upward, with the restored horizontal velocity and the exact ground flag |
| Motion.MoveGoesFar | src/game/world/world.cpp:164-212 | the whole move: first sideways and then, from there, up or down, each leg as far as it can; position, velocities and flag |
| Motion.TickGoesFar | src/game/world/world.cpp:107-156 | a tick asks for 100 dt to the side of the last walking input, 400 dt up for a jump on the ground and 9.8 dt down, and the player gets exactly as far as the level lets it |
| Motion.HeadingIsLast | src/game/world/world.cpp:129-136 | of the opcodes 0x0012 (left) and 0x0013 (right) the last one of a tick decides, every other opcode changes nothing |
| Border.MoveStaysEnclosed | src/game/world/world.cpp:164-212 | inside a closed ring of solid tiles a move of any speed ends inside the ring |
| Border.TickStaysContained | src/game/physics/collision.cpp:70-82 | with ticks of at most tile/390.2 a tick keeps a player inside, keeps the velocity bounds, and all eight converted bounds are in the range of size_t |
| Border.TickVelocities | src/game/world/world.cpp:107-155 | in a tick horizontal speed is at most 100 dt and upward speed at most one tile |
| Border.BoundsNonNegative | src/game/physics/collision.cpp:79-82 | no converted bound is negative if and only if neither start nor unobstructed end has a negative coordinate |
| WorldState.LevelIsValid | src/game/world/world.cpp:28-42 | the level of a valid configuration has a solid tile exactly for each non-zero cell, each on its own place |
| WorldState.ProcessInputs | src/game/world/world.cpp:78-83 | the players after a batch of inputs that dereferences no null player are those whose creation was not followed by a removal |
| WorldState.InputsActAlone | src/game/world/world.cpp:97-148 | a batch of inputs steers each player by its own opcodes only, from its old or its freshly created state |
| WorldState.TickIsPlayerTick | src/game/world/world.cpp:66-88 | a world tick is, for each live player, a tick of that player alone |
| WorldState.RunPreserves | src/game/world/world.cpp:66-95 | induction over runs: what new players have and each player tick keeps holds at every tick boundary, and what holds before each move holds at every move |
| Runs.RunNeverPenetrates | src/game/world/world.cpp:150-212 | in every run, for any inputs and tick lengths, every player is outside all solid tiles at every tick boundary and at every point of every path |
| Runs.RunGoesFar | src/game/world/world.cpp:66-156 | in every run every tick takes every player exactly as far as its own inputs ask and the level lets it, from its old place or, if just created, from the configured one |
| Runs.RunStaysContained | src/game/physics/collision.cpp:70-82 | in every run on a bordered map with dt at most tile/390.2 players stay inside for ever and every converted bound is in range |
| Runs.RunKeepsGround | src/game/world/world.cpp:190-211 | the ground flag means contact at every tick boundary of every run |
| Runs.RunIsPlayerRun | src/game/world/world.cpp:66-95 | in a run an undisturbed player moves exactly as it would alone |
| Runs.RunJumpHeight | src/game/world/world.cpp:107-156 | the 7964 dt bound holds for every player in every run of equal ticks |
| Witnesses.RoomIsClosed | src/game/world/world.cpp:28-42 | the room of the witnesses is bordered and its start position is free and inside |
| Witnesses.LongTickUnderflows | src/game/physics/collision.cpp:79-82 | for every tile size and every dt above tile/390.2: in a bordered room whose player fills its cell, the run create, jump converts a negative bound |
| Witnesses.TickLimitExactly | src/game/world/world.cpp:107-156 | all runs on all bordered maps with ticks up to a limit convert only defined bounds if and only if the limit is at most tile/390.2 |
| Witnesses.JumpHeightIsReached | src/game/world/world.cpp:137-156 | the jump bound is tight: in the room forty ticks after an accepted jump the player is exactly 7964 dt up, for every dt that keeps it below the ceiling |
| Witnesses.CeilingCountsAsGround | src/game/world/world.cpp:190-211 | the exception of the ground flag is real: a run of three ticks ends with the flag set below a ceiling and on no floor |
| World.Player.constructor | src/game/player/player.cpp:5-14 | a new player has the given fields and is not on the ground |
| World.Player.Move | src/game/player/player.cpp:16-20 | adds the displacement and changes nothing else |
| World.Player.SetVel | src/game/player/player.hpp:23-23 | sets the velocity and nothing else |
| World.Player.SetOnGround | src/game/player/player.hpp:26-26 | sets the flag and nothing else |
| World.World.constructor | src/game/world/world.cpp:21-43 | the nested loops build the level of the configuration; there are no players |
| World.World.MoveAlongX | src/game/world/world.cpp:170-187 | the horizontal leg in place is the function `MovedX`, whose end point `Motion.MovedXGoesFar` states |
| World.World.MoveAlongY | src/game/world/world.cpp:189-211 | the vertical leg in place is the function `MovedY`, whose end point `Motion.MovedYGoesFar` states |
| World.World.MovePlayer | src/game/world/world.cpp:164-212 | the whole move in place is the function `Moved`, whose end point `Motion.MoveGoesFar` states |
| World.World.Update | src/game/world/world.cpp:150-162 | gravity, move and one broadcast of the new position |
| World.World.Others | src/game/world/world.cpp:246-261 | the loop collects every player but the new one |
| World.World.Announce | src/game/world/world.cpp:229-273 | emits the function `Announcement`; who hears what of it is `Told.CreationIsHeard` |
| World.World.AddPlayer | src/game/world/world.cpp:214-274 | stores the player under its id and announces it |
| World.World.RemovePlayer | src/game/world/world.cpp:276-284 | erases the player and broadcasts the removal |
| World.World.SteerPlayer | src/game/world/world.cpp:129-144 | the steering cases in place are the function `Steer` |
| World.World.Lookup | src/game/world/world.cpp:101-101 | an unknown id gets a null player, and nothing else changes |
| World.World.CreatePlayer | src/game/world/world.cpp:113-124 | a new player at the start position, announced; no other entry may be null |
| World.World.ProcessInput | src/game/world/world.cpp:97-148 | one input in place, for known and unknown ids and any opcode that dereferences no null player: the players, the null entries and the packets |
| World.World.SwapIn | src/game/world/world.cpp:68-69 | the inbound queues trade places |
| World.World.StopAll | src/game/world/world.cpp:74-76 | every horizontal velocity is cleared |
| World.World.DrainInputs | src/game/world/world.cpp:78-83 | the loop empties the queue, in order, and terminates; no null player is left |
| World.World.UpdateAll | src/game/world/world.cpp:87-88 | every player is updated exactly once, in some order, with one packet each |
| World.World.Flush | src/game/world/world.cpp:90-94 | everything emitted moves to the network queue in order |
| World.World.Tick | src/game/world/world.cpp:66-95 | one tick in place: the players, the emitted packets and all four queues |
| Replication.FoldIsInbox | src/net/server/server.cpp:108-123 | folding the log for a client is applying, in order, what is routed to it; the routing itself is stated by `Told` and `Server.Server.Dispatch` |
| Replication.AnnouncementTracks | src/game/world/world.cpp:229-273 | whatever a client knew, after the packets of a join it still tracks the world, and the new client knows all of it; which packets those are is `Told.CreationIsHeard` |
| Replication.InputTracks | src/game/world/world.cpp:97-148 | every input keeps every client in step |
| Replication.MovesTrack | src/game/world/world.cpp:157-161 | the move packets of a tick, in any order, bring every client to the new positions |
| Replication.TickTracks | src/game/world/world.cpp:66-95 | every tick keeps every client in step |
| Replication.ClientSeesWorld | src/game/world/world.cpp:214-284 | at the end of every tick of every run, a client with a live player, listening from any point before its creation, has exactly the world's ids, positions and sizes; otherwise what it knows is still correct |
| Told.CreationPlaces | src/game/world/world.cpp:113-124 | a creation stores, under its id and no other, a player at x = startX * tile + offset and y = startY * tile + offset, at rest and not on the ground |
| Told.CreationIsHeard | src/game/world/world.cpp:229-273 | the client of the new player hears exactly two messages, the creation with its start position and then all other players; every other client hears exactly one, the addition |
| Told.OtherInputIsHeard | src/game/world/world.cpp:126-147 | a removal is told once to everybody, also for an unknown id, and no other input is told to anybody |
| Told.MovesAreHeard | src/game/world/world.cpp:150-162 | at the end of a tick every client hears of every live player exactly once, with its new coordinates |
| Told.RunTellsExactly | src/net/server/server.cpp:108-123 | in every run a client hears creations of its own player only, additions of others only, spawn lists without itself, and as many of each kind as the inputs say |
| Encoding.CreatePlayerPacket | src/shared/protocol/net_packet.cpp:69-75 | the builder pushes id, x, y, width, height under its opcode |
| Encoding.AddPlayerPacket | src/shared/protocol/net_packet.cpp:77-83 | the same under the opcode of an addition |
| Encoding.RemovePlayerPacket | src/shared/protocol/net_packet.cpp:85-91 | the builder pushes the id |
| Encoding.MovePlayerPacket | src/shared/protocol/net_packet.cpp:93-99 | the builder pushes id, x, y |
| Encoding.MessageRoundTrip | src/shared/protocol/net_packet.cpp:58-99 | every message decodes from the frame of its packet, and the packet is within the limits if and only if it is no spawn packet with more than four others |
| Layout.NetBytesAreBig | src/shared/protocol/net_packet.hpp:77-95 | byte i of an appended value is the value divided by 256 to the power of the bytes that follow, modulo 256 |
| Layout.MessageLayout | src/shared/protocol/net_packet.cpp:58-99 | the flat buffer of each of the five messages byte by byte: two bytes of opcode (0x0003, 0x0004, 0x0015, 0x0016, 0x0017), four of the payload length, the fields with their widths in order |
| Encoding.JoinFits | src/game/world/world.cpp:243-262 | the spawn packet of a join is within the payload limit if and only if at most five players are then live |
| Encoding.InboxEncodes | src/net/server/server.cpp:103-123 | routing commutes with encoding |
| Encoding.MessagesArrive | src/shared/protocol/net_packet.cpp:52-99 | messages sent as bytes and cut into arbitrary reads arrive frame for frame if and only if no join is crowded, and then decode to the messages sent |
| Joins.RunIsSized | src/shared/config/config.hpp:17-18 | in every run every size in every message is a byte, because the configured sizes are |
| Joins.JoinsDecideCrowding | src/game/world/world.cpp:243-262 | in every run no message for a client is too crowded if and only if at most five players are live right after each input that creates its player |
| Delivery.ArrivesExactly | src/shared/protocol/net_packet.cpp:52-68 | in every run a client receives the frames of all packets sent to it, however encoded and cut, if and only if its joins left at most five players live |
| Delivery.ShareIsDue | src/net/server/server.cpp:99-128 | in every run a session is handed two buffers for each creation of its own player, one for every other creation, one for every removal and one per tick for each live player |
| Delivery.ClientSeesWorldOverTheWire | src/game/world/world.cpp:214-284 | replication over the byte stream under that condition on the inputs, for any order of the hash table and any cutting of the bytes |
| Crowd.SixthJoinIsLost | src/game/world/world.cpp:243-262 | the condition is needed: a run of six creations whose packets for the sixth client exist, are read, and do not arrive |
| Delivery.SessionWritesStream | src/net/session/session.cpp:162-214 | in every interleaving, a session that has run to its end in good health has written the stream of the packets handed to it |
| Delivery.ClientSeesWorldInTheEnd | src/net/server/server.cpp:99-128 | end to end: run, encoding, routing, interleaved sends, cut reads, decoding and folding yield exactly the world's map, if at most five players are live right after each creation of the client's player |
| Queues.TSQueue.constructor | src/shared/utils/ts_queue.hpp:19-19 | a new queue is empty |
| Queues.TSQueue.Push | src/shared/utils/ts_queue.hpp:69-75 | appends at the back |
| Queues.TSQueue.TryPop | src/shared/utils/ts_queue.hpp:48-57 | takes the front, or nothing from an empty queue |
| Queues.TSQueue.WaitAndPop | src/shared/utils/ts_queue.hpp:59-67 | takes the front once there is one |
| Queues.TSQueue.Empty | src/shared/utils/ts_queue.hpp:77-82 | tells whether the queue is empty |
| Queues.TSQueue.Size | src/shared/utils/ts_queue.hpp:84-89 | tells the length |
| Queues.TSSwap | src/shared/utils/ts_queue.hpp:38-46 | exchanges the contents, also of a queue with itself |
| Queues.PipelineKeepsOrder | src/game/world/world.cpp:68-83 | in every interleaving of pushes with ticks, from empty queues: processed, game queue, network queue are the pushed packets in order; a tick ends with exactly what was pushed before its swap processed |
| Queues.DrainTerminates | src/game/world/world.cpp:79-83 | a drain ends after exactly as many pops as the swap brought, whatever is pushed meanwhile |
| Wire.NetBytesReversed | src/shared/protocol/net_packet.hpp:14-20 | what is appended is the value in network byte order |
| Wire.ReadIsNetValue | src/shared/protocol/net_packet.hpp:97-105 | reading bytes takes them as network order |
| Wire.WireRoundTrip | src/shared/protocol/net_packet.hpp:77-105 | every value of a width reads back as itself |
| Wire.HeaderRoundTrip | src/shared/protocol/net_packet.hpp:55-62 | a header field reads back, the size modulo 2^32, and the other field is untouched |
| Wire.PushPop | src/shared/protocol/net_packet.hpp:77-112 | a pop undoes a push; the header size is the body length in 32 bits |
| Wire.StackRoundTrip | src/shared/protocol/net_packet.hpp:77-112 | any list of values of mixed widths, pushed and popped in reverse, comes back, with body and opcode restored |
| Wire.PushedBody | src/shared/protocol/net_packet.hpp:86-89 | the body grows by the network bytes of each value |
| Wire.NetPacket.constructor | src/shared/protocol/net_packet.hpp:47-47 | a new packet has a zero header and no body |
| Wire.NetPacket.SetHeadOpcode | src/shared/protocol/net_packet.hpp:61-61 | writes the opcode bytes only |
| Wire.NetPacket.SetHeadSize | src/shared/protocol/net_packet.hpp:62-62 | writes the size bytes only, in 32 bits |
| Wire.NetPacket.ResizeBody | src/shared/protocol/net_packet.cpp:44-50 | keeps what fits and fills with zeroes |
| Wire.NetPacket.Push | src/shared/protocol/net_packet.hpp:77-95 | operator<< in place is the function `Pushed` |
| Wire.NetPacket.Pop | src/shared/protocol/net_packet.hpp:97-112 | operator>> in place is the function `Popped` |
| Spawn.PushRecord | src/game/world/world.cpp:255-259 | one player is five values in this order |
| Spawn.PushOthers | src/game/world/world.cpp:246-261 | the loop writes one record for every other player, in some order |
| Spawn.MakeSpawnPacket | src/game/world/world.cpp:243-262 | the count is the number of records, one for each other player, the body has 8 + 26 (n - 1) bytes, and a reader gets back every other player exactly once |
| Spawn.SpawnRoundTrip | src/game/world/world.cpp:243-262 | popping in reverse recovers every record exactly once and in order |
| Spawn.CountField | src/game/world/world.cpp:245-245 | what is left below the records is the count |
| Spawn.SpawnIsRead | src/game/world/world.cpp:243-262 | writer and reader together: the records of the listed players come back from the packet, each once and in order |
| Framing.ReadStep | src/net/session/packet_handler.cpp:16-59 | one read of any admissible size keeps the link to the one-shot parser, which `Pieces.PiecesParse` pins |
| Framing.SessionParsesStream | src/net/session/session.cpp:84-160 | for every stream and every way of cutting it into reads the session emits the frames of the one-shot parser; `Pieces.SessionEmitsPackets` says which those are |
| Framing.PendingIsIncomplete | src/net/session/packet_handler.cpp:23-25 | between reads the pending bytes contain no complete frame |
| Framing.ParseStream | src/shared/protocol/net_packet.cpp:52-68 | a stream of small packets parses to the frames of those that have a body |
| Framing.TransmissionIsExact | src/shared/protocol/net_packet.cpp:52-68 | a list of packets arrives as itself if and only if each has a body, an opcode below 0x0FFF and a payload below 128 bytes |
| Framing.SentIsReceived | src/shared/protocol/net_packet.cpp:58-68 | what is sent within those limits is emitted at the other end, in arbitrary chunks |
| Framing.StreamIsFlat | src/shared/protocol/net_packet.cpp:58-68 | the stream is the concatenation of the flat buffers |
| Pieces.PiecesParse | src/net/session/packet_handler.cpp:16-40 | a stream made of refused headers, whole packets and an unfinished end parses to the packets in order: a refused header costs its six bytes and nothing else |
| Pieces.SessionEmitsPackets | src/net/session/session.cpp:84-160 | however such a stream is cut into reads, the session emits exactly its packets, in order; headers are refused for an opcode of 0x0FFF or more or a size of 128 or more |
| Pieces.StreamHasPieces | src/net/session/packet_handler.cpp:16-59 | every byte stream is made of such pieces |
| Pieces.BufferIsPiece | src/shared/protocol/net_packet.cpp:58-68 | the flat buffer of a packet within the limits is one such piece, byte for byte |
| Framing.PacketHandler.constructor | src/net/session/packet_handler.hpp:44-46 | a new handler waits for a header |
| Framing.PacketHandler.HeadSizeLeft | src/net/session/packet_handler.hpp:28-29 | a header read is never empty and ends at the end of the header buffer |
| Framing.PacketHandler.BodySizeLeft | src/net/session/packet_handler.hpp:31-32 | a payload read is never empty and ends at the end of the body buffer |
| Framing.PacketHandler.UpdateHeadSize | src/net/session/packet_handler.cpp:16-40 | true exactly on a complete valid header, whose body is then allocated; a complete invalid one restarts the cursor |
| Framing.PacketHandler.UpdateBodySize | src/net/session/packet_handler.cpp:42-59 | true exactly on a complete payload; the cursors are then reset |
| Framing.PacketHandler.ExtractPacket | src/net/session/packet_handler.cpp:9-14 | moves the packet out, with the remains that the move leaves |
| Framing.PacketHandler.OnRead | src/net/session/session.cpp:107-157 | the completion handlers in place are the function `Received`; what a connection then emits is `Pieces.SessionEmitsPackets` |
| Framing.ReadAll | src/net/session/session.cpp:84-160 | the read loop over a connection yields the frames of the one-shot parser, which are the packets of the stream by `Pieces.PiecesParse` |
| SendProtocol.FlagStep | src/net/session/session.cpp:168-214 | every step keeps: the flag is held by exactly one thread, one outstanding write, or nobody for ever |
| SendProtocol.OrderStep | src/net/session/session.cpp:162-214 | every step keeps: written, carried and queued buffers are the pushed ones in order |
| SendProtocol.WakeStep | src/net/session/session.cpp:168-212 | every step keeps: a non-empty queue with a clear flag has a thread about to look |
| SendProtocol.SendIsSafe | src/net/session/session.cpp:162-214 | in every interleaving at most one write is outstanding, nothing is lost, duplicated or reordered, no wake-up is lost, and the flag has no owner if and only if a write failed or a TryPop was empty |
| SendProtocol.NothingIsLeftBehind | src/net/session/session.cpp:162-214 | at rest and in good health everything pushed has been written |
| SendProtocol.WorkShrinks | src/net/session/session.cpp:168-212 | every action and every completion leaves less work: 8 per queued buffer, 7 per outstanding write, a rank per thread |
| SendProtocol.SendingComesToRest | src/net/session/session.cpp:162-214 | rest is inevitable: without new calls every execution has at most that many steps, and it can stop only when no thread is at work and no write outstanding |
| SendProtocol.LeakIsForever | src/net/session/session.cpp:182-205 | after a failed write or an empty TryPop nothing is ever written again |
| SendProtocol.DisconnectedWritesNothing | src/net/session/session.cpp:168-172 | while the status is Disconnected no thread gets past the first test of Send, and if none had passed it before nothing is written and what is pushed stays queued |
| SendProtocol.FailedWriteDisconnects | src/net/session/session.cpp:191-205 | unless another handler changes the state, after a failed write the session is Disconnected or a thread is about to make it so |
| SendProtocol.EmptyPopExactly | src/net/session/session.cpp:178-185 | a TryPop is empty if and only if the queue was empty at the test_and_set and nothing was pushed since |
| SendProtocol.EmptyPopIsReachable | src/net/session/session.cpp:182-185 | the branch marked as impossible is reachable on a healthy connected session |
| SendProtocol.AloneIsARun | src/net/session/session.cpp:162-214 | PushToSend and the completion handler, run without interruption, are runs of the interleaved protocol |
| Lifecycle.StepKeepsInvariant | src/net/server/server.cpp:86-146 | every step of accepts, handshakes, reads, writes and closes keeps the lifecycle invariant, among it: a session in the table between handlers has a read outstanding |
| Lifecycle.LifecycleIsOrderly | src/net/server/server.cpp:86-146 | an id enters the table at most once; CreatePlayer comes once and first, RemovePlayer at most once; the table holds exactly the entered and not removed ids; that removals happen is `Lifecycle.FailuresAreRemovals` |
| Lifecycle.TableIsWatched | src/net/session/session.cpp:58-105 | in every run a session in the table is about to be announced, about to be closed, or has a read outstanding that can succeed or fail |
| Lifecycle.ClosingOnlyCloses | src/net/session/session.cpp:70-74 | after a reported error the only handler that can run for the session is the one that closes it; it stays possible until it runs, removes the id from the table and queues RemovePlayer if it was there |
| Lifecycle.FailureCloses | src/net/session/session.cpp:92-105 | a failed handshake, read or write leads there |
| Lifecycle.FailuresAreRemovals | src/net/server/server.cpp:135-146 | in every run an id had a failed read or write if and only if its RemovePlayer is queued or about to be; it entered the table or is about to if and only if its handshake succeeded, never if it failed; the inbound queue is what the steps say |
| Lifecycle.TrafficIsCounted | src/net/session/session.cpp:84-212 | in every run a session reads from its announcement to its first failed read, and has as many writes outstanding as were started and not completed |
| Inbound.LiveIsAlive | src/game/world/world.cpp:113-128 | for any queue, whoever sent it, the live ids are those with a creation that no removal follows |
| Inbound.TicksSafeExactly | src/game/world/world.cpp:100-148 | for any inputs cut into ticks in any way: no null player is dereferenced if and only if every input that names a missing player does not steer and is followed in its tick by a creation or removal of that id, before anyone is created |
| Inbound.CutIsSafeExactly | src/game/world/world.cpp:100-148 | the same for a queue of the server and the ticks at hand: exactly the orphans have to be harmless in this sense |
| Inbound.QueueIsSafeUnlessOrphaned | src/game/world/world.cpp:100-148 | a queue of the server is safe wherever the ticks cut it if and only if no client packet, other than one that creates or removes, comes while the last word on its player is a removal |
| Inbound.SteeringOrphanIsFatal | src/game/world/world.cpp:129-144 | such a packet that steers dereferences null wherever the ticks fall |
| Inbound.StalePacketIsReachable | src/net/session/session.cpp:191-205 | a write failure while a read completes can queue such a packet, of any opcode |
| Inbound.ClientRemovalIsReachable | src/net/session/session.cpp:107-121 | a connected client can remove its own player and then send such a packet |
| System.StepKeepsInvariant | src/net/server/server.cpp:86-146 | every step of network and game threads keeps: the queue carries the log of the sessions, and the ticks have taken it in order and without a gap |
| System.RunIfSafe | src/game/world/world.cpp:66-95 | ticks over the live players are a run of the world if and only if they never dereference a null player |
| System.ServerIsARun | src/game/world/world.cpp:66-95 | in every interleaving of the whole server the ticks are a run of the world from no players if and only if every orphan that they have processed is harmless |
| System.ServerNeverPenetrates | src/game/world/world.cpp:150-212 | no penetration, for every such interleaving of the whole server |
| System.ServerIsReplicated | src/game/world/world.cpp:214-284 | replication, for every such interleaving of the whole server |
| Server.Session.constructor | src/net/session/session.cpp:20-26 | a new session is connecting, idle and has an empty queue |
| Server.Session.Send | src/net/session/session.cpp:168-189 | in place: starts the write of the head of the queue, unless disconnected, empty or already sending |
| Server.Session.PushToSend | src/net/session/session.cpp:162-166 | in place: queues and sends |
| Server.Session.OnWritten | src/net/session/session.cpp:191-212 | in place: clears the flag and goes on, or disconnects |
| Server.Server.constructor | src/net/server/server.cpp:18-28 | a new server has no sessions |
| Server.Server.AddSession | src/net/server/server.cpp:86-97 | the table gains the session and CreatePlayer is queued |
| Server.Server.PushPacket | src/net/server/server.cpp:130-133 | the client packet is queued |
| Server.Server.CloseSession | src/net/server/server.cpp:135-146 | erases and queues RemovePlayer, or does nothing for an unknown id |
| Server.Server.OnWriteDone | src/net/session/session.cpp:191-212 | the whole write handler: the session goes on, or disconnects and leaves the table with RemovePlayer queued |
| Server.Server.Dispatch | src/net/server/server.cpp:103-126 | a Broadcast is pushed to every session, an Rpc to the session of its id only, an RpcOthers to all sessions but that one, as flat buffer, once each, and each starts to send; all other sessions keep their state |
| Server.Server.Sender | src/net/server/server.cpp:99-128 | what was pushed to a session grows by exactly the flat buffers of its share of the emitted packets, in order |

## Left out

- Sockets, TLS, Boost.Asio, Beast and WebSocket framing (src/net/socket): a read is any chunk up to the requested size and a write is a later completion.
- The database and cryptography (src/db, src/cryptography): calls into foreign libraries.
- Configuration loading, logging, the game clock and thread start-up (src/shared/config/config.cpp, src/main.cpp, GameLoop): their results are parameters.
- Floating-point rounding, signed zero and NaN.
- The unsynchronised access of the sender to the session table, and Rpc delivery to an id that is no longer there.
- Several sender threads, which may reorder packets: one sender, as configured, is modelled.
- What happens after a null player was dereferenced, which C++ leaves undefined: `InputsSafe` requires that it does not happen.
- Bodies of 4 GiB and more: Framing.HeaderAgrees excludes them; the header size itself is modelled modulo 2^32.
- World.World.Tick: does not show pushes by network threads during the tick; Queues.PipelineKeepsOrder covers those interleavings.
- Queues.TSQueue.WaitAndPop: does not model the waiting, only what happens once the queue is not empty.
- Server.Server.Sender: ends when the queue is empty, where the code waits for more; each Dispatch is one uninterrupted turn, and SendProtocol covers the interleavings.
- Server.Session.OnWritten: leaves out the call to CloseSession after a failed write, which Server.Server.OnWriteDone adds.
