# CyberpunkMP: verified models of the hard parts

This project models six parts of CyberpunkMP, the multiplayer mod for Cyberpunk 2077, and proves what they promise.

* **Spline** (`Tridiagonal.dfy`, `SplineSystem.dfy`, `CubicSpline.dfy`). The in-place tridiagonal solver with row
  interchange, the equations it is given, the spline built from its solution, and the bin table that speeds up lookup.
  Doubles are real numbers. A zero divisor, which in C++ would put infinities into the result, is reported as *not
  finite*.
* **Wire codec** (`Bits.dfy`, `Buffer.dfy`, `Wire.dfy`, `Serialization.dfy`, `Netpack.dfy`). The bit cursors over a
  growing buffer, the variable-length integers, strings and signed integers built on them, and the code netpack emits
  for each message. A writer's contract says two things. The stream holds the value in its standard form: LEB128
  (section 7.6 of DWARF 5) and ZigZag for integers, and for whole packets a list of bit fields and byte strings. And
  *every* stream that still holds what has been written up to the writer's position decodes, from the position before
  the write, to the value and to the position after it. Garbage above the cursor and whatever is written later are
  therefore harmless by contract. Readers are proved equal to total decoding functions, failures included, which find
  every value wherever its standard form stands.
* **Puppet replication** (`Replication.dfy`, `Hearing.dfy`, `MissedPuppets.dfy`). Authentication, spawning,
  disconnection and delivery, with one first-in first-out queue per connection, and the replica set each client keeps.
  `Hearing.dfy` says what each event makes each client hear, and what worlds and queues are after any run. **Cells**
  (`Grid.dfy`, `Following.dfy`) are the sparse grid of the same level, with 16-bit wrap-around in the window scan, and
  what the cells collected at an entity's moves are worth while cells come and go.
* **Time** (`Clock.dfy`, `Angles.dfy`, `Interpolation.dfy`, `Received.dfy`, `Playback.dfy`). The client's synchronised
  clock in integer nanoseconds, the buffer of received frames that is drawn from, which of the frames received are in
  it, and clock and buffer together: what is drawn at the tick the clock shows.
* **CRC-64** (`Crc64.dfy`). The table-driven loop against the bit-serial definition, and the errors it must notice.
* **Job boards** (`Jobs.dfy`, `JobLaws.dfy`, `JobObjects.dfy`, `WrapAround.dfy`). Deliveries and taxi rides shared by
  all players, with orphaned driver objects and their finalizers, and 32-bit identifiers that wrap around.
  `JobLaws.dfy` says by conditions on the state before an event what the event does.

`Options.dfy` holds the one type of optional values, and `Arithmetic.dfy` products and quotients used by name.

Objects the program updates in place are classes here; each of their methods is proved to take the step that a
function on values describes, and the properties over whole runs are lemmas about those functions. What such a
function computes is stated independently of it as well: as a standard form, as a proportion, as a known value, or by
what has happened before. Clock readings, the engine's answers, entity identifiers and the order in which the entity
store enumerates a set are parameters.

Some results are about where a promise stops, and give the exact condition.

* The not-a-knot boundary, documented as a supported option, works for every number of knots but three; for three it
  always divides by zero.
* A correction of the clock below minus one second makes reported ticks go back, and one at or above it never does.
* A second spawn on one connection leaves a puppet with the other clients when its player leaves; a disconnection
  keeps every client in agreement exactly when the leaving player has no such puppet, or nobody else is in the level.
  A puppet the engine does not create stays missing exactly when nothing shows it and nothing under way loads or
  unloads it, and a run from the empty server comes to that.
* Drawing a frame at a fractional render tick moves later frames ahead of where they belong, because the drawn frame
  keeps the whole tick only; they are where they belong exactly for whole ticks, at the target, or without any way to
  go.
* A turn goes the short way round exactly when the two angles are at most one and a half circles apart, and drawn
  angles can come further apart than that.
* Cells collected at an entity's moves miss what happens in between: a client is wrong about a position exactly when
  its cell was made or erased an odd number of times inside the window since the entity last crossed it. A cell is
  made exactly when an entity goes to where none is, and erased exactly when the only entity in it goes away.
* Adding an entity that already has a cell spoils the grid, and adding any other keeps it sound.
* A delivery is never refused by its board, nor lost, before the counter of delivery identifiers wraps around,
  whatever rides do, and the other way round. After that both happen: a run of one player loses a delivery, and a run
  of requests loses a ride. A delivery, or a ride made once under its identifier, is nowhere to be found exactly when
  a finalizer has lost it.

## Model

| member | source | states |
|---|---|---|
| Tridiagonal.Solve | code/common/Math/Spline.h:49-106 | Succeeds exactly when the matrix is nonsingular, for systems of every size; the result solves the original equations and is their only solution. The padding is in no equation, so it cannot matter |
| Tridiagonal.EliminateColumn | code/common/Math/Spline.h:61-90 | The in-place step is the elimination step on values, in both branches |
| Tridiagonal.EliminateKeepsSolutions | code/common/Math/Spline.h:61-90 | The normal step and the row interchange with its fill-in both keep exactly the solutions |
| Tridiagonal.PivotLeavesMultiple | code/common/Math/Spline.h:63-90 | The row an interchange leaves, diagonal, super-diagonal and right-hand side, is one non-zero multiple of the row the normal branch would leave |
| Tridiagonal.DeadColumnIsSingular | code/common/Math/Spline.h:63-76 | A column without a usable divisor has a non-zero vector in the kernel, so stopping there loses nothing |
| Tridiagonal.BackSubstitute | code/common/Math/Spline.h:92-105 | The loop, with the interchanged rows' second super-diagonal, solves the working rows |
| Tridiagonal.BackSubstitutionUnique | code/common/Math/Spline.h:92-105 | Two solutions of working rows with non-zero diagonal agree everywhere |
| Tridiagonal.DominantIsNonsingular | code/common/Math/Spline.h:259-267 | Strictly diagonally dominant rows have only the zero solution of the homogeneous system |
| SplineSystem.NaturalIsNonsingular | code/common/Math/Spline.h:226-233 | With natural boundaries the solver never meets a zero divisor, for every increasing knot sequence |
| SplineSystem.FirstPivotIff | code/common/Math/Spline.h:63-76 | The interchange does occur: at the first column exactly when the first interval exceeds one |
| SplineSystem.FillEquations | code/common/Math/Spline.h:213-267 | The coefficient arrays as filled in are the spline equations, for both boundaries |
| CubicSplines.PieceEnds | code/common/Math/Spline.h:277-285 | A piece takes the given values at both knots and the solved second derivatives there |
| CubicSplines.SolutionIsSmooth | code/common/Math/Spline.h:193-207 | Neighbouring pieces agree in value, first and second derivative at every interior knot |
| CubicSplines.SolutionMeetsBoundary | code/common/Math/Spline.h:226-257 | Natural: zero second derivative at both ends. Not-a-knot: the first two and the last two pieces are one cubic each |
| CubicSplines.SolutionIsSpline | code/common/Math/Spline.h:193-286 | The pieces built from a solution interpolate, join smoothly and meet the boundary condition |
| CubicSplines.VerdictIsExact | code/common/Math/Spline.h:165-267 | For usable points, building succeeds exactly when the equations are nonsingular: always, but for three knots without the natural boundary |
| SplineSystem.NotAKnotIff | code/common/Math/Spline.h:235-257 | The not-a-knot equations are nonsingular exactly when there are not three knots, whatever the knots and values |
| SplineSystem.FourKnotsAreNonsingular | code/common/Math/Spline.h:235-257 | Four knots or more: the zero vector is the only solution of the homogeneous equations |
| SplineSystem.ThreeKnotsAreSingular | code/common/Math/Spline.h:235-257 | Three knots with the not-a-knot boundary always meet a zero divisor |
| CubicSplines.MakePieces | code/common/Math/Spline.h:165-286 | The outcome, with each error thrown, and the pieces from a solution of the equations |
| CubicSplines.CurveInterpolates | code/common/Math/Spline.h:151-163 | The evaluated curve passes through every given point |
| CubicSplines.CubicSpline.MakeSpline | code/common/Math/Spline.h:165-292 | The object's pieces and bounds come from a solution of the equations for the given points |
| CubicSplines.CubicSpline.MakeBins | code/common/Math/Spline.h:298-327 | Terminates with at most one bin more than pieces; each bin names the piece in force at its lower edge |
| CubicSplines.CubicSpline.FindSpline | code/common/Math/Spline.h:332-361 | For every real argument, finds the same piece as a linear scan, and its assertion holds |
| CubicSplines.CoversUnique | code/common/Math/Spline.h:350-360 | At most one piece is in force at a point |
| CubicSplines.HornerIsValue | code/common/Math/Spline.h:151-163 | Horner's scheme evaluates the cubic |
| CubicSplines.CubicSpline.Evaluate | code/common/Math/Spline.h:151-163 | Evaluation gives the value of the curve the pieces describe |
| CubicSplines.CubicSpline.Make | code/common/Math/Spline.h:142-146 | Construction fails with the source's errors, or for three knots without the natural boundary; otherwise spline and index are valid |
| CubicSplines.Interpolate | code/common/Math/Spline.h:142-163 | Construction and evaluation together: whenever a spline is built, its value at each knot is the given one |
| Buffers.Buffer.Resize | code/common/Core/Buffer.cpp:90-102 | A new allocation that keeps the old bytes; without one, nothing changes |
| Buffers.Reader.ReadBits | code/common/Core/Buffer.cpp:177-220 | Reads the bit field at the cursor at every alignment; past the end gives zero and does not move |
| Buffers.Reader.ReadBytes | code/common/Core/Buffer.cpp:222-237 | Aligns, then reads the bytes; past the end only the alignment remains |
| Buffers.Writer.WriteBits | code/common/Core/Buffer.cpp:245-292 | Grows as needed, keeps every bit before the cursor, and the field reads back modulo 2 to the count from every extension of what is written |
| Buffers.Writer.WriteBytes | code/common/Core/Buffer.cpp:294-312 | The same for byte strings after alignment |
| Buffers.FieldStored | code/common/Core/Buffer.cpp:262-287 | Masking the first byte and copying the rest changes no bit below the cursor and stores the low bits of the data |
| Buffers.GatherField | code/common/Core/Buffer.cpp:195-215 | Shifted whole bytes, the bits of the first byte and the mask make the bit field |
| Buffers.WriteItems | code/common/Core/Buffer.cpp:245-312 | For every interleaving of bit fields and byte strings, across any growth, replaying the reads gives every value back |
| Serialization.GroupsFit | code/common/Core/Serialization.cpp:62-72 | A value needs at most k groups of seven bits exactly when it is below 2 to the 7k |
| Serialization.WordGroups | code/common/Core/Serialization.cpp:43-60 | A 64-bit value needs at most ten groups, so shifts stay below 64 |
| Serialization.Leb128Examples | code/common/Core/Serialization.cpp:62-72 | The standard byte form, on the examples of DWARF 5: 12857 is 0xb9 0x64 |
| Wire.OctetsAreField | code/common/Core/Serialization.cpp:64-71 | Groups of eight bits laid one after another are one field, lowest byte first, and at a byte boundary they are the bytes of the stream |
| Serialization.WriteVarInt | code/common/Core/Serialization.cpp:62-72 | Writes the standard byte form of the value (section 7.6 of DWARF 5) at every alignment, keeps earlier bits, and decodes to the value from every extension |
| Serialization.ReadVarInt | code/common/Core/Serialization.cpp:43-60 | Terminates on every stream from every position, and is the decoding function |
| Serialization.LebFound | code/common/Core/Serialization.cpp:43-60 | Wherever the standard bytes of a 64-bit value stand, at every alignment, the reader finds the value and stops behind them |
| Serialization.VarIntStaysInside | code/common/Core/Serialization.cpp:43-60 | Decoding never leaves the buffer, even when a seven-bit read fails and the one-bit read after it succeeds |
| Serialization.FoldIsZigZag | code/common/Core/Serialization.cpp:139-148 | The bit operations fold signed integers as ZigZag does: twice v, or minus twice v minus one |
| Serialization.UnfoldIsZagZig | code/common/Core/Serialization.cpp:128-137 | The reader's operations undo it on every pattern |
| Serialization.FoldUnfold | code/common/Core/Serialization.cpp:128-170 | Folding and unfolding are mutually inverse bijections |
| Serialization.WriteInt | code/common/Core/Serialization.cpp:139-170 | Signed integers of 32 and 64 bits are on the wire as the standard bytes of their ZigZag form, and decode to themselves |
| Serialization.ReadInt | code/common/Core/Serialization.cpp:128-159 | The reader is the signed decoding function |
| Serialization.WriteString | code/common/Core/Serialization.cpp:15-21 | The length modulo 65536 in standard bytes, then from the next byte boundary as many bytes, which come back |
| Serialization.ReadString | code/common/Core/Serialization.cpp:4-13 | The reader is the decoding function for strings and byte vectors |
| Netpack.BoolsRoundTrip | code/netpack/main.cpp:566-582 | Presence bits survive being packed into a number |
| Netpack.FlagsLaid | code/netpack/main.cpp:566-582 | The packed number holds the first flag in its lowest bit and one bit for each, in order |
| Netpack.WriteValue | code/netpack/main.cpp:458-503 | Each field kind is laid out in its form on the wire, and decodes to what of it is sent |
| Netpack.ReadValue | code/netpack/main.cpp:358-410 | The emitted reader of one value is the decoding function |
| Netpack.WriteElements | code/netpack/main.cpp:505-537 | Repeated fields: every element in order |
| Netpack.ReadElements | code/netpack/main.cpp:412-456 | Reads as many elements as the count says |
| Netpack.Serialize | code/netpack/main.cpp:561-614 | For every schema, nested and repeated fields and oneofs included: a bit for each singular field, the present ones, each repeated field behind its count; decodes back, at the writer's exact position |
| Netpack.MessageFound | code/netpack/main.cpp:616-672 | Wherever the bits of a message stand, whoever wrote them, the reader gets what is sent of it and stops behind it |
| Netpack.Deserialize | code/netpack/main.cpp:616-672 | Into a fresh object, is the decoding function; terminates on every stream and never leaves it |
| Netpack.SerializePacket | code/netpack/main.cpp:189-207 | The opcode in standard bytes and then the message; it selects the same message type at the receiver, and the message comes back |
| Netpack.DeserializePacket | code/netpack/main.cpp:209-239 | Dispatch on the opcode; unknown opcodes are refused |
| Netpack.PacketFound | code/netpack/main.cpp:209-239 | The same for a packet, whose type is picked by its opcode |
| Netpack.PacketExample | code/netpack/main.cpp:189-207 | A packet in full: every bit and byte of a message with a present number, an absent flag and a list of one string |
| Netpack.RoundTrip | code/netpack/main.cpp:189-239 | Writer to reader through one buffer, behind any earlier writes: same type, same message, same position |
| Netpack.CollectFields | code/netpack/main.cpp:837-852 | The generator's lists: optional fields, and plain fields before those of oneofs |
| Netpack.EmissionOrder | code/netpack/main.cpp:584-610 | The emitted order visits every field exactly once, singular ones first, each group as declared |
| Replication.NetworkWorldSystem.Handle | code/client/App/World/NetworkWorldSystem.cpp:183-239 | A client applies loads, unloads and its spawn response; a load whose puppet is not created changes nothing |
| Replication.NetworkWorldSystem.Spawn | code/client/App/World/NetworkWorldSystem.cpp:34-61 | A puppet the engine creates becomes a replica; otherwise nothing changes |
| Replication.NetworkWorldSystem.DeSpawn | code/client/App/World/NetworkWorldSystem.cpp:63-82 | An unknown entity is ignored, a known one removed |
| Replication.GameServer.GetByConnectionId | code/server/native/PlayerManager.cpp:52-61 | Finds exactly the players there are |
| Replication.GameServer.Create | code/server/native/PlayerManager.cpp:27-44 | A repeated authentication keeps the player it finds |
| Replication.GameServer.HandleAuthentication | code/server/native/GameServer.cpp:167-213 | A wrong protocol ends the connection; a right one makes a player |
| Replication.GameServer.Add | code/server/native/Game/Level.cpp:57-93 | The new puppet is shown to every player in the level, in release builds but its owner |
| Replication.GameServer.AddPlayer | code/server/native/Game/Level.cpp:139-157 | Broadcast first, then every other player's puppet to the newcomer, in some order of the entity store |
| Replication.GameServer.HandleSpawnCharacterRequest | code/server/native/Game/Level.cpp:164-200 | Response, broadcast and catch-up in this order; without a player only a response without an id |
| Replication.GameServer.Remove | code/server/native/Game/Level.cpp:95-131 | The unload goes to every player, spawned or not, but the owner in release builds |
| Replication.GameServer.OnDisconnection | code/server/native/GameServer.cpp:146-165 | Removes player, puppet and remaining children |
| Replication.DrainedLoads | code/client/App/World/NetworkWorldSystem.cpp:183-223 | A run of loads adds exactly its puppets, in whatever order |
| Replication.DrainedKeeps | code/client/App/World/NetworkWorldSystem.cpp:183-228 | Whether a world shows a puppet makes no difference later exactly when a message under way loads or unloads it |
| Replication.DeliverKeepsSyncIff | code/client/App/World/NetworkWorldSystem.cpp:34-61 | A delivery keeps every client in agreement exactly when it is no load that fails for good |
| Replication.SpawnKeepsSync | code/server/native/Game/Level.cpp:164-200 | A spawn, even a repeated one, keeps every client in agreement |
| Replication.DisconnectKeepsSyncIff | code/server/native/GameServer.cpp:146-165 | A disconnection does exactly when the player abandoned no puppet, or nobody else is in the level |
| Replication.NextKeepsSyncIff | code/server/native/GameServer.cpp:146-213 | Every step keeps agreement, exactly but for such disconnections and failed loads |
| Replication.RunKeepsSync | code/server/native/Game/Level.cpp:57-200 | Over every interleaving, each client's drained world is the others' puppets in the level; in debug builds its own as well |
| Replication.ClientsShowTheOthers | code/server/native/Game/Level.cpp:57-200 | From an empty server with one spawn per connection and every puppet created: the others' puppets exactly, never its own, nothing before spawning, and the right character id |
| Hearing.QueueAfter | code/server/native/Game/Level.cpp:57-200 | What every event adds to each client's queue, message by message and in order; only a delivery takes from it, and from the front |
| Hearing.PlayersAfter | code/server/native/GameServer.cpp:146-213 | Who is a player after an event, and with which puppet |
| Hearing.ActorsAfter | code/server/native/Game/Level.cpp:57-200 | Which puppets are in the level after an event, and whose they are |
| Hearing.ClientsHearEverything | code/server/native/GameServer.cpp:146-213 | Over every run from an empty server: a client has heard what it was told, but for what is under way, with nothing lost, repeated or reordered; it shows exactly the puppets last created; it takes the one last named for its character; and it hears of no puppet before its own |
| Replication.SpawningTwiceStrands | code/server/native/Game/Level.cpp:191-199 | A repeated spawn followed by leaving breaks agreement for everyone else in the level |
| Replication.UncreatedIsMissed | code/client/App/World/NetworkWorldSystem.cpp:34-61 | In every state in agreement, a client with nothing under way that does not create a newcomer's puppet misses it |
| MissedPuppets.RunThatMisses | code/client/App/World/NetworkWorldSystem.cpp:34-61 | From an empty server, a run with one spawn per connection ends like that |
| Grid.OffsetsDecide | code/server/native/Game/Level.h:35-47 | Each step of the scan visits the one position at its offsets, around the 16-bit circle |
| Grid.NearIff | code/server/native/Game/Level.h:35-47 | The window is what steps from minus the range up to, but not including, the range reach on each axis, around the 16-bit circle |
| Grid.WindowExamples | code/server/native/Game/Level.h:35-47 | The corners of the window of radius three, and a window across the edge of the coordinates |
| Grid.Level.CellsInRange | code/server/native/Game/Level.h:35-47 | The scan visits every cell of the half-open window once, and no other, with wrap-around |
| Grid.Level.CollectCells | code/server/native/Game/Level.cpp:458-475 | Exactly the two set differences of the windows |
| Following.ChangesIff | code/server/native/Game/Level.cpp:396-456 | After a step there is a cell exactly where there was one whose only entity does not go away, or where there was none and an entity goes to |
| Following.StepErrs | code/server/native/Game/Level.cpp:396-475 | One step: a move of the entity across an existing cell puts its client right about it; otherwise an error turns around exactly when an entity goes to where no cell is, or the only one in the cell goes away, inside the window |
| Following.FollowerErrsIff | code/server/native/Game/Level.cpp:396-475 | Over every run of arrivals, departures and moves, a client is wrong about exactly the positions where such a thing happened an odd number of times inside the window since the entity last crossed them |
| Following.RightIffUndisturbed | code/server/native/Game/Level.cpp:396-475 | A client is right all along a run exactly when no step is such a one inside the window, but for the entity itself leaving its cell behind out of sight |
| Following.ArrivalIsMissed | code/server/native/Game/Level.cpp:57-93 | An arrival in the window where no cell was is not noticed |
| Grid.Level.GetCell | code/server/native/Game/Level.cpp:446-456 | Makes an empty cell only where there was none |
| Grid.Level.CellAdd | code/server/native/Game/GridCell.cpp:14-18 | Appends to the cell and names it in the entity's component |
| Grid.Level.CellRemove | code/server/native/Game/GridCell.cpp:21-25 | Erases the entity's entry and its component |
| Grid.Erase | code/server/native/Game/GridCell.cpp:24 | Erases the first occurrence |
| Grid.WithoutRemoves | code/server/native/Game/GridCell.cpp:21-25 | From a list without repetitions, exactly that entity goes |
| Grid.WithoutKeepsOrder | code/server/native/Game/GridCell.cpp:21-25 | From every list, the first occurrence goes and the others stay in order |
| Grid.InExactlyOneCell | code/server/native/Game/GridCell.cpp:14-25 | In a sound grid an entity is listed once, in the cell its component names, and nowhere else |
| Grid.PlacedIsSoundIff | code/server/native/Game/GridCell.cpp:14-18 | Placing an entity keeps the grid sound exactly when it stands in no cell yet |
| Grid.Level.Add | code/server/native/Game/Level.cpp:57-93 | Places the entity in a cell that is made if need be, or nothing without movement; sound without empty cells afterwards exactly when the entity was not placed before |
| Grid.Level.Remove | code/server/native/Game/Level.cpp:119-131 | Keeps it so, takes the entity out and erases a cell that becomes empty |
| Grid.MovedIsClean | code/server/native/Game/Level.cpp:396-429 | Taking, placing and sweeping leave a sound grid without empty cells, also when both cells are the same |
| Grid.Level.TransferCell | code/server/native/Game/Level.cpp:396-429 | Keeps it so, moves the entity to the new cell, and collects the two differences of the windows over the cells there are before the old one is swept |
| Clock.SynchronizedClock.Synchronize | code/common/Network/SynchronizedClock.cpp:26-49 | Stale server ticks change nothing; otherwise the step of the clock |
| Clock.SynchronizedClock.Update | code/common/Network/SynchronizedClock.cpp:57-72 | The step of the clock; a synchronised clock stays so |
| Clock.SynchronizedClock.Reset | code/common/Network/SynchronizedClock.cpp:51-55 | Back to unsynchronised |
| Clock.SynchronizedClock.IsSynchronized | code/common/Network/SynchronizedClock.cpp:21-24 | Tells whether the clock runs |
| Clock.TickBounds | code/common/Network/SynchronizedClock.cpp:57-72 | The tick lies between the last reported and the estimated one, both moved on, and equals the latter after a second |
| Clock.CorrectionIsSpread | code/common/Network/SynchronizedClock.cpp:57-72 | A correction of either sign is spread evenly: x nanoseconds into the second the tick is off the exact line by less than a millisecond and a nanosecond, and exactly its floor when the correction is not negative |
| Clock.NeverDecreasesIff | code/common/Network/SynchronizedClock.cpp:57-72 | Ticks after a synchronisation never decrease exactly when the correction is at least minus one second, truncation included |
| Clock.ShareKeepsUp | code/common/Network/SynchronizedClock.cpp:66-71 | A truncated share of such a correction never takes back more than the time that passed |
| Clock.StaysSynchronized | code/common/Network/SynchronizedClock.cpp:21-72 | Over every run, once synchronised always synchronised until a reset, however large the corrections |
| Clock.ReadingsNeverDecrease | code/common/Network/SynchronizedClock.cpp:26-72 | Over every run without reset and with gentle corrections, reported ticks never decrease, across updates and synchronisations |
| Clock.HarshCorrectionGoesBack | code/common/Network/SynchronizedClock.cpp:37-71 | A correction below minus one second is seen to go back one second later |
| Clock.CatchesUp | code/common/Network/SynchronizedClock.cpp:37-71 | A second after an accepted synchronisation the server tick and half the round trip, moved on, are shown exactly |
| Clock.ShownAtSync | code/common/Network/SynchronizedClock.cpp:26-49 | The first server tick is shown at once with half the round trip; a later one not before the next update |
| Clock.StaleTicksAreIgnored | code/common/Network/SynchronizedClock.cpp:26-35 | After an accepted server tick and any updates, no tick that is not greater changes anything |
| Interpolation.InterpolationComponent.InterpolateEntity | code/client/App/World/InterpolationSystem.cpp:38-134 | Pops, interpolates and remembers the drawn frame, as the step of the buffer |
| Interpolation.InterpolationSystem.HandleNotifyEntityMove | code/client/App/World/InterpolationSystem.cpp:186-215 | Queues a frame unless it is older than the newest; nothing for an entity that is absent or has no component |
| Interpolation.PoppedIsSuffix | code/client/App/World/InterpolationSystem.cpp:48-55 | Exactly the leading frames before the render tick are dropped |
| Interpolation.RatioIsFraction | code/client/App/World/InterpolationSystem.cpp:64-69 | The unsigned subtraction does not wrap and the ratio lies between zero and one |
| Interpolation.NextIsGood | code/client/App/World/InterpolationSystem.cpp:46-131 | The queue stays sorted, what is left is not older than the render tick, the drawn frame carries its whole milliseconds |
| Received.QueueIsWhatArrived | code/client/App/World/InterpolationSystem.cpp:186-215 | After every run, the queue is exactly the accepted frames that no render tick since has passed, in order of arrival, those there at first included |
| Received.NewestStays | code/client/App/World/InterpolationSystem.cpp:211-214 | A received frame not older than any before it is in the queue until a render tick lies beyond it |
| Received.RenderDrawsFirstLeft | code/client/App/World/InterpolationSystem.cpp:46-79 | A render draws exactly when a frame is left and the engine can draw, and then towards the first one left |
| Received.PreviousIsLastDrawn | code/client/App/World/InterpolationSystem.cpp:60-131 | Over every run, from the frame drawn last |
| Interpolation.LerpStaysInside | code/common/Math/Math.h:16-27 | Interpolation stays in every half-space that holds both ends |
| Interpolation.DrawingsAreConfined | code/client/App/World/InterpolationSystem.cpp:46-131 | Over every run, drawn positions lie in the convex hull of the initial and the received ones, and speeds between bounds |
| Interpolation.DrawingsStayInBox | code/client/App/World/InterpolationSystem.cpp:46-131 | The same for bounding boxes |
| Interpolation.DrawingInBetweenLeads | code/client/App/World/InterpolationSystem.cpp:46-131 | Drawing a frame in between, at any tick, moves a later one on towards the target by exactly what the forgotten fraction is of the time left |
| Interpolation.DrawingInBetween | code/client/App/World/InterpolationSystem.cpp:46-131 | The later position is unchanged exactly when the earlier tick is whole, or the later one is at the target's tick, or both ends coincide |
| Interpolation.DrawnIsProportional | code/client/App/World/InterpolationSystem.cpp:60-131 | Positions, and a puppet's speed, change in proportion to the time between the two frames |
| Interpolation.DrawnTurnsEvenly | code/client/App/World/InterpolationSystem.cpp:83-126 | So do directions, up to whole circles: about all axes for a vehicle, about the upright one for a puppet |
| Interpolation.DrawnAtOnce | code/client/App/World/InterpolationSystem.cpp:63-69 | Between frames of the same tick a ten-thousandth of the way is gone |
| Interpolation.ArrivesExactly | code/client/App/World/InterpolationSystem.cpp:60-79 | At a received frame's own tick the entity is at its position |
| Interpolation.ArrivesTurned | code/client/App/World/InterpolationSystem.cpp:83-126 | And has turned to its direction, some whole circles apart |
| Interpolation.DrawnStaysInCircle | code/client/App/World/InterpolationSystem.cpp:83-126 | Every drawn direction is less than a circle either way |
| Angles.ModStays | code/common/Math/Math.cpp:32-35 | The remainder of the circle is the same direction, with the sign of the angle |
| Angles.TurnArrives | code/common/Math/Math.cpp:15-35 | A whole turn ends in the direction turned to |
| Angles.TurnIsProportional | code/common/Math/Math.cpp:15-35 | A part of a turn goes that part of the way, straight or a circle less or more, and straight for less than half a circle |
| Angles.TurnIsShortIff | code/common/Math/Math.cpp:15-30 | A turn is at most half a circle exactly when the angles are at most one and a half circles apart |
| Angles.LongWayRound | code/common/Math/Math.cpp:15-35 | Two whole turns to angles between zero and a circle lead where a third goes the long way |
| Interpolation.DrawnTicksAscend | code/client/App/World/InterpolationSystem.cpp:46-131 | Over every run, the ticks of drawn frames never decrease |
| Playback.RenderTicksAreTimely | code/client/App/Network/NetworkService.cpp:80-90 | A clock with gentle corrections gives the buffer render ticks that never go back, which its own properties need |
| Playback.PlaybackIsSmooth | code/client/App/World/InterpolationSystem.cpp:38-134 | However server ticks, clock updates, received and drawn frames interleave: drawn ticks never decrease, and positions stay in the box of the start at the origin and all received positions |
| Crc64.Crc64 | code/common/Core/Hash.cpp:138-150 | The table-driven loop computes the bit-serial CRC on every input |
| Crc64.StartComplementsFirstBytes | code/common/Core/Hash.cpp:138-150 | Starting with all ones and complementing the end: for eight bytes or more, the complement of the plain remainder of the message with its first eight bytes complemented |
| Crc64.ZeroInFrontIsNoticed | code/common/Core/Hash.cpp:138-150 | A zero byte in front changes the CRC of every message |
| Crc64.EmptyMessage | code/common/Core/Hash.cpp:138-150 | The empty message has CRC zero |
| Crc64.CheckValue | code/common/Core/Hash.cpp:138-150 | The nine digits 123456789 have 0x62ec59e3f1a4f00a |
| Crc64.TableIsStep8 | code/common/Core/Hash.cpp:6-135 | Each of the 256 entries is eight bit-steps of its index |
| Crc64.Step8Linear | code/common/Core/Hash.cpp:138-150 | The byte step is linear over exclusive or |
| Crc64.Step8Injective | code/common/Core/Hash.cpp:138-150 | And reversible |
| Crc64.TableStepFeedsByte | code/common/Core/Hash.cpp:142-148 | One turn of the loop is what the definition does with a byte's eight bits |
| Crc64.RunIsBitSerial | code/common/Core/Hash.cpp:138-150 | The same for whole messages |
| Crc64.WindowMeets | code/common/Core/Hash.cpp:138-150 | Up to eight bytes bring two registers together exactly when the registers' difference is the packed bytes' |
| Crc64.BurstsAreNoticed | code/common/Core/Hash.cpp:138-150 | Messages that differ at most inside a window of eight bytes have the same CRC only if they are equal |
| Crc64.NearbyMessagesDiffer | code/common/Core/Hash.cpp:138-150 | The same for two messages given whole |
| Jobs.NextIsGood | code/server/scripting/JobSystem/Taxi.cs:128-264 | Every event, counters past their largest value included, keeps the invariant: jobs filed under their own identifiers, objects of one kind with one owner |
| Jobs.FreshDeliveriesNeverCollide | code/server/scripting/JobSystem/DeliveryDriver.cs:95-115 | While delivery identifiers have not run out, the board never refuses a key |
| Jobs.FreshRidesNeverCollide | code/server/scripting/JobSystem/Taxi.cs:25-39 | While ride identifiers have not run out, the stand never refuses a key |
| Jobs.DeliveriesStayFresh | code/server/scripting/JobSystem/DeliveryDriver.cs:95-226 | Every event that does not wrap the delivery counter keeps its identifiers fresh: none both on the board and held, none held twice |
| Jobs.RidesStayFresh | code/server/scripting/JobSystem/Taxi.cs:25-264 | Every event that does not wrap the ride counter keeps its identifiers fresh: none at the stand, carried and finished at once, none carried twice |
| Jobs.NextAccountsFees | code/server/scripting/JobSystem/DeliveryDriver.cs:100-226 | No event makes a delivery, and only a finalizer whose board refuses loses one, whatever weight its fee is given |
| Jobs.NextAccountsRides | code/server/scripting/JobSystem/Taxi.cs:25-212 | Only a request makes a ride, and only a finalizer whose stand refuses loses one |
| Jobs.JobsAreAccounted | code/server/scripting/JobSystem/JobManager.cs:66-126 | Over every interleaving by any number of players, finalizers and wrapped counters included: on the board, held by live or orphaned drivers, done, and lost add up |
| Jobs.DeliveriesAreConserved | code/server/scripting/JobSystem/DeliveryDriver.cs:74-226 | Until the delivery counter wraps around, whatever rides do, no key is refused and no delivery lost |
| Jobs.RidesAreConserved | code/server/scripting/JobSystem/Taxi.cs:25-264 | Until the ride counter wraps around, whatever deliveries do, no key is refused and no ride lost |
| Jobs.FeesAddUp | code/server/scripting/JobSystem/DeliveryDriver.cs:74-93 | Fees available, held, paid and lost are always a thousand |
| Jobs.EveryDeliveryHasOnePlace | code/server/scripting/JobSystem/DeliveryDriver.cs:74-226 | After every run, each of the five, told apart by its fee, is in a place exactly when no finalizer has lost it, and in no two: on the board once, with one driver, or paid once |
| Jobs.EveryRideHasOnePlace | code/server/scripting/JobSystem/Taxi.cs:25-212 | After every run, a ride made once under an identifier is in a place exactly when no finalizer has lost it, and in no two: at the stand, with one taxi, or finished once |
| Jobs.EveryIssuedRideHasOnePlace | code/server/scripting/JobSystem/Taxi.cs:25-212 | Until the ride counter wraps around, every identifier issued has a ride in exactly one place |
| WrapAround.RunThatLosesDelivery | code/server/scripting/JobSystem/DeliveryDriver.cs:95-159 | One player who cancels and accepts a delivery until its counter has wrapped around, and leaves, makes it get lost: it is nowhere any more |
| WrapAround.RunThatLosesRide | code/server/scripting/JobSystem/Taxi.cs:25-122 | Requests until their counter comes round make a ride get lost that is still carried |
| Jobs.FinishesOnlyWhenReady | code/server/scripting/JobSystem/Taxi.cs:128-193 | A ride finishes only with its rider picked up, at its destination, with the rider out of the taxi or gone |
| Jobs.FinishedWasReady | code/server/scripting/JobSystem/Taxi.cs:128-264 | Over every run, a finished ride was once carried with its rider on board |
| JobLaws.JobAfter | code/server/scripting/JobSystem/JobManager.cs:66-126 | Who has a job after an event; a job a player has already stays, and a new one is a new object |
| JobLaws.HasJobIff | code/server/scripting/JobSystem/JobManager.cs:66-126 | After every run, exactly the players who took one and have not quit since |
| JobLaws.BoardAfter | code/server/scripting/JobSystem/DeliveryDriver.cs:95-183 | The board loses exactly the delivery that a player without one asks for, and gains exactly one given back while its next identifier is free |
| JobLaws.HeldAfter | code/server/scripting/JobSystem/DeliveryDriver.cs:131-227 | What each driver object holds after an event |
| JobLaws.PaidIff | code/server/scripting/JobSystem/DeliveryDriver.cs:208-227 | Fees are paid exactly when a player with a delivery is updated at its destination, and its object is free then |
| JobLaws.PaidAreDelivered | code/server/scripting/JobSystem/DeliveryDriver.cs:95-227 | Over every run, what is paid are exactly the fees of the deliveries taken to their destinations, in order |
| JobLaws.CarriedAfter | code/server/scripting/JobSystem/Taxi.cs:110-264 | What each taxi carries after an event |
| JobLaws.ReadyAfter | code/server/scripting/JobSystem/Taxi.cs:128-264 | A rider counts as ready exactly from the beginning of the ride until it ends, is dropped or cancelled |
| JobLaws.StandAfter | code/server/scripting/JobSystem/Taxi.cs:25-212 | The stand loses exactly a ride picked up, and gains exactly one requested or dropped whose identifier is free |
| JobLaws.FinishedIff | code/server/scripting/JobSystem/Taxi.cs:128-193 | A ride finishes exactly when its taxi, with the ride begun, is updated at the destination with the rider out of it or gone |
| JobLaws.FinishedAreEnded | code/server/scripting/JobSystem/Taxi.cs:128-264 | Over every run, the finished rides are exactly those brought to their ends, in order |
| JobObjects.DeliverySystem.constructor | code/server/scripting/JobSystem/DeliveryDriver.cs:74-93 | The board starts with the five deliveries |
| JobObjects.DeliverySystem.AssignJob | code/server/scripting/JobSystem/DeliveryDriver.cs:100-109 | Takes a job off the board, or none |
| JobObjects.DeliverySystem.MakeJobAvailable | code/server/scripting/JobSystem/DeliveryDriver.cs:111-115 | Refused exactly when the key exists |
| JobObjects.DeliveryDriver.CancelJob | code/server/scripting/JobSystem/DeliveryDriver.cs:145-159 | Returns the active delivery under a new identifier, and fails exactly when the board has it already |
| JobObjects.DeliveryDriver.AcceptJob | code/server/scripting/JobSystem/DeliveryDriver.cs:161-183 | Takes a delivery only without an active one and only from the board |
| JobObjects.DeliveryDriver.HeavyUpdate | code/server/scripting/JobSystem/DeliveryDriver.cs:208-227 | Pays the fees exactly when a driver who is there has arrived, and then holds nothing; fails exactly for a driver that is gone in the middle of a job |
| JobObjects.TaxiServer.CreateJob | code/server/scripting/JobSystem/Taxi.cs:25-39 | Files the ride under the next identifier, refused exactly when the key exists; a rider who is gone gets none, and the counter stays |
| JobObjects.TaxiServer.AssignJob | code/server/scripting/JobSystem/Taxi.cs:81-90 | Takes a ride off the stand, or none |
| JobObjects.Taxi.CancelJob | code/server/scripting/JobSystem/Taxi.cs:195-212 | Returns the active ride and forgets the rider's readiness; fails exactly when the stand has its identifier |
| JobObjects.Taxi.AcceptJob | code/server/scripting/JobSystem/Taxi.cs:214-236 | Takes a ride only without an active one and only from the stand |
| JobObjects.Taxi.RiderReady | code/server/scripting/JobSystem/Taxi.cs:238-264 | Needs an active ride; a vanished rider cancels it; a vanished driver makes it fail before the rider counts as ready |
| JobObjects.Taxi.HeavyUpdate | code/server/scripting/JobSystem/Taxi.cs:128-193 | All branches: waiting, boarding, vanished driver or rider, waiting for the rider to get out, completion, and exactly when it fails |
| JobObjects.JobManager.constructor | code/server/scripting/JobSystem/JobManager.cs:31-44 | Starts in the state the runs start from |
| JobObjects.JobManager.SetJob | code/server/scripting/JobSystem/JobManager.cs:66-86 | A player with a job keeps it; otherwise a new driver object of the kind |
| JobObjects.JobManager.Quit | code/server/scripting/JobSystem/JobManager.cs:88-126 | Quitting and leaving forget the object, and the job stays with it |
| JobObjects.JobManager.AcceptDelivery | code/server/scripting/JobSystem/DeliveryDriver.cs:18-26 | The player's own driver object takes the step; another kind of job takes none |
| JobObjects.JobManager.CancelDelivery | code/server/scripting/JobSystem/DeliveryDriver.cs:28-36 | The same; it fails exactly when the board refuses the identifier |
| JobObjects.JobManager.HeavyUpdate | code/server/scripting/JobSystem/JobManager.cs:106-112 | The loop updates the players' jobs in some order, each at most once, until one fails, and is the run of those updates; without a failure all have had theirs |
| JobObjects.JobManager.UpdateOne | code/server/scripting/JobSystem/JobManager.cs:108-111 | One job's update is the event's step, and fails exactly for a police job, a driver gone in the middle of a job, or a ride that cannot be put back |
| JobObjects.JobManager.CreateRide | code/server/scripting/JobSystem/Taxi.cs:25-39 | Any player may ask for a ride; it fails exactly when the player is gone or the stand refuses the identifier |
| JobObjects.JobManager.AcceptRide | code/server/scripting/JobSystem/Taxi.cs:41-49 | The player's own taxi takes the step |
| JobObjects.JobManager.CancelRide | code/server/scripting/JobSystem/Taxi.cs:51-59 | The same; it fails exactly when the stand refuses the identifier |
| JobObjects.JobManager.RiderReady | code/server/scripting/JobSystem/Taxi.cs:71-79 | The same; it fails exactly when the ride cannot be put back, or the driver is gone when it would begin |
| JobObjects.JobManager.FinalizeDriver | code/server/scripting/JobSystem/DeliveryDriver.cs:131-143 | An orphan's delivery goes back to the board unless its identifier is refused, and the orphan is gone |
| JobObjects.JobManager.FinalizeTaxi | code/server/scripting/JobSystem/Taxi.cs:110-122 | An orphan's ride goes back to the stand unless its identifier is refused, and the orphan is gone |

## Left out

- Rounding, infinities and NaN: doubles and floats are real numbers in the spline and the interpolation, and raw bit patterns in the codec.
- Tridiagonal.Solve: at a zero divisor the source goes on with infinities; the model stops and reports it.
- Serialization.ReadVarInt: bits that would be shifted to position 64 and beyond are taken as lost; in C++ such a shift is undefined.
- Buffers.Writer.WriteBits: the memory to grow into is always there, so no return value is shown; `Resize` itself has the other case.
- Cursor `Advance`, `Reverse` and `Reset`, and resizing a view of foreign memory.
- Netpack.Serialize: recursive message types, map fields and messages with more than 64 presence bits; the emitted code for the last is not well formed.
- Netpack.SerializePacket: a protocol message with several oneofs, whose opcodes would coincide; getters, setters, the identifiers hashed from a protocol, and stale values after switching a oneof.
- Clock.SynchronizedClock.Update: overflow of 64-bit ticks and nanoseconds; the local clock is taken not to go back.
- Clock.SynchronizedClock.Synchronize: the product of correction and elapsed seconds is exact here before it is truncated; the source computes it in doubles.
- Interpolation.InterpolationComponent.InterpolateEntity: drawing at a render tick below zero, whose conversion is undefined in C++, and what the engine does with a drawn frame.
- Playback.PlaybackIsSmooth: nothing is drawn before the clock shows at least the delay, since render ticks below zero are left out.
- Replication.GameServer.Add: what a load message carries besides the entity, and the entity's cell, which is the subject of the grid.
- Replication.GameServer.HandleAuthentication: a refusal and the disconnection that follows it are one step, so the refusal is sent but never handled; the content of settings, remote procedure definitions and names.
- Players' entities are identified with their connections, after which they are named; entity identifiers of living puppets are distinct.
- Vehicles, which carry no level tag and are not shown to late joiners.
- Grid.Level.Add: the conversion of a position to a cell; the entity store is taken to overwrite the component of an entity that has one.
- Grid.Level.CellRemove: removing an entity that the cell does not list, which is undefined in C++.
- Grid.Level.TransferCell: nothing calls it yet, and the messages for the cells it collects are commented out; it returns the two sets here, and a run moves an entity by getting the cell and transferring.
- JobObjects.JobManager.HeavyUpdate: what a player's update finds out about the world is given beforehand; a player it says nothing about is gone.
- JobObjects.JobManager.CancelDelivery: for a player who is gone, as for an accepted job, the source throws once everything is done, at the message to that player; this is not shown as a failure.
- JobObjects.JobManager.FinalizeDriver: the finalizer is one atomic step; an exception after the job has been returned is caught and changes nothing.
- The other hash of the same file, FNV-1a, and the level's own test routine.
- The frequent update of jobs, which does nothing but throw for a police job.
- Messages to players, loading and saving of jobs, sockets, compression, threads, the engine, the user interface and the web interface.
