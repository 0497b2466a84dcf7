# KOOKIE: a verified model of the native adapters and the session tools

KOOKIE's C adapters and Python session tools keep a game together: they serve browsers, carry out a player's commands,
carry datagrams, share work among threads, stage scenes for the GPU and shrink object files. This project models the
parts where state, concurrency, byte layouts and integer arithmetic meet, and proves what they are relied on for.

Code that computes values is modelled by functions. Code that updates state in place is modelled twice: by a method of a
class over the source's own fields, arrays and loops, and by a function on values that the method is proved against.
Steps that run under a lock are single steps of a transition system, and the main results hold for every sequence of
such steps. Sockets, clocks, allocation and the order in which threads run are arguments of the steps, so that the
results hold whatever they do.

What a method computes is a function, and what that function means is said again without it: in numbers, in bytes and by
definitions of their own, in `CoffBytes`, `CoffErrors`, `PhysicsNumbers`, `GameCommands`, `GameAccounts`, `GameScenes`,
`GameConversation`, `SessionLayout`, `SessionContract`, `WebReactions`, `WebSteps`, `WebSlots`, `JobsOrders`,
`SipNumbers`, `TransportWords`, `RendezvousRooms`, `KutterWords`, `GpuBatch` and `GpuReload`.

| modules | subject | source |
|---|---|---|
| `Bytes`, `Bits`, `Results`, `Ring` | packed integers, bitwise operations on numbers, results, the ring of the two C queues | |
| `CoffObject`, `CoffSymbols`, `CoffStrip`, `CoffBytes`, `CoffErrors`, `CoffStripper` | removal of debug sections from COFF objects | `scripts/strip_coff_debug.py` |
| `Physics`, `PhysicsLaws`, `PhysicsNumbers` | collision, braking and jumping | `scripts/kookie_websocket_session.py` |
| `GameState`, `GameLaws`, `GameCommands`, `GameAccounts`, `GameScenes`, `RampClimb`, `AuthoritativeGame` | the game, its snapshots and the session contract | the same |
| `SessionMessages`, `SessionContract`, `SessionCodec`, `SessionLayout`, `SessionIntegrity` | the message validator, the framed codec, its two checksums | the same |
| `GameSession`, `GameServer`, `GameConversation`, `GameSpoiled` | the game loop that serves a client | the same |
| `WebFrames`, `WebOutput`, `WebServer`, `WebStreamLaws`, `WebOutputLaws`, `WebServerLaws`, `WebPayloads`, `WebReactions`, `WebSteps`, `WebSlots`, `WebUpgrade`, `WebConnection`, `WebServerState` | the WebSocket and event server | `native/kookie_web_server.c` |
| `Jobs`, `JobsRuns`, `JobsOrders`, `JobsState` | the worker pool | `native/kookie_jobs.c` |
| `SipHash`, `SipNumbers`, `SipTwins`, `SipTwinsApart` | SipHash-2-4 and its two implementations | `native/kookie_transport.c`, `scripts/kookie_rendezvous.py` |
| `Datagrams`, `Transport`, `TransportWords`, `TransportState` | tagged, numbered datagrams over a network that loses, repeats and reorders | `native/kookie_transport.c` |
| `Rendezvous`, `RendezvousLaws`, `RendezvousRooms`, `RendezvousState` | rooms of two that learn each other's addresses | `scripts/kookie_rendezvous.py` |
| `KutterFrames`, `Kutter`, `KutterEpochs`, `KutterWords`, `KutterState` | the sync client with its detached workers | `native/kookie_kutter_sync.c` |
| `GpuScene`, `GpuBatch`, `GpuReload`, `GpuSceneBuffers`, `GpuState` | scene staging, text runs and reloads | `native/kookie_sdl_adapter.c` |

Where the code does not do what one would expect of it, the model follows the code, and a lemma says how far off it is:

- An object with an optional header is written without it but still announces it. `CoffStrip.OptionalHeaderShifts` says,
  in lengths known before the object is written, when a reader finds no section table; `CoffStrip.BareObjectReadable`
  and `CoffStrip.OptionalHeaderLost` go with it.
- A ramp can lift the player into a box (`PhysicsLaws.SettleOutside`, exactly). In the game's own world three moves
  forward and one to the right do it (`RampClimb.RampLiftsRunner`).
- A special in legacy mode leaves the projectile and the effect on height zero. `GameLaws.PlayedSceneExactly` says exactly
  which games, however they were played, have a full scene that the validator accepts; `GameSession.ShowExactly` says it
  for what a session shows in each of its modes, and `GameServer.TalkExactly` for every message to every client.
  `GameSpoiled.SpecialSpoilsTalk` is a conversation in which the server sends an invalid message;
  `GameLaws.LegacySpecialSpoilsScene` and `GameLaws.LandedSpecialSpoilsScene` are two games that fail.
- The wire checksum misses some changes of the bytes at offsets 511 and 1023 (`SessionIntegrity.WireChecksumMisses`, exactly).
- A refused WebSocket upgrade may overwrite bytes that still wait to be sent (`WebOutput.RefusalSparesExactly`;
  `WebOutput.UpgradeSpoils` is an answer that every upgrade spoils, `WebUpgrade.UpgradeSpoilsRun` a run of the server in
  which it does).
- The web server takes a request head of one or two bytes for a whole one: its test for an unfinished head is right exactly
  from three bytes on (`WebSteps.UnfinishedSeenExactly`). What it does with the shorter ones C leaves undefined; in the
  model they wait for more bytes.
- The header of the web server says that connection numbers are not reused. They are, exactly once more sockets got a slot
  than there are numbers (`WebServerLaws.NumbersApartExactly`, `WebServerLaws.NumbersRunOut`). C leaves the increment
  past the last number undefined; the model takes it to wrap, as the test that follows it in the source does.
- Python's SipHash runs over 64 bits for 256 bytes and more (`SipTwins.LastPyFits`). The final states are the same exactly
  if what is over falls on bits that are set (`SipTwins.TwinsAgreeExactly`), and then so are the tags
  (`SipTwinsApart.CoveredTwins`); there are datagrams for which the states differ (`SipTwinsApart.DatagramTwinsPart`).
- The sync client packs kinds that do not fit the kind byte (`KutterFrames.PackedDeliveredExactly`).
- The sync client numbers its epochs with 32 bits, and takes the old workers for its own again when the number comes round:
  `Kutter.MistakenExactly`, exactly; `KutterEpochs.EpochsRunOut`, a stage that goes out twice.
- The rendezvous forgets the numbers it heard when a client leaves: the bytes of its hello are answered again
  (`RendezvousLaws.ReplayAfterLeave`).
- A reload of generation 0, and of no other, can be cancelled although none is pending (`GpuScene.CancelNothing`).

## Model

| member | source | states |
|---|---|---|
| `CoffStrip.SectionsSurvive` | scripts/strip_coff_debug.py:31-174 | A reader of the stripped object finds exactly the sections that are not debug sections, in order, with the same names, characteristics, raw and line bytes, and with each relocation led to its symbol's new number |
| `CoffStrip.SymbolsSurvive` | scripts/strip_coff_debug.py:80-122 | The surviving symbols are just those whose group names no removed section; their renumbering is strictly increasing and dense; each is the record it was and names the same section in the new numbering |
| `CoffStrip.RelocationsResolve` | scripts/strip_coff_debug.py:142-161 | Every relocation of a surviving section resolves to the same symbol as before |
| `CoffStrip.SymbolTableWritten` | scripts/strip_coff_debug.py:163-174 | The written header points to a table of exactly the surviving records, with the whole string table behind it up to the end of the file |
| `CoffStrip.StripTwice` | scripts/strip_coff_debug.py:31-174 | Stripping twice is stripping once |
| `CoffStrip.OptionalHeaderShifts` | scripts/strip_coff_debug.py:131-174 | With an optional header a reader finds no whole section table exactly if the surviving sections, symbols and strings, whose length is known beforehand, do not reach the end of where the header announces the table |
| `CoffStrip.WrittenLengthIs` | scripts/strip_coff_debug.py:131-174 | The stripped object is as long as its header, rows and aligned chunks, symbols and strings make it, told from the original alone |
| `CoffStrip.BareObjectReadable` | scripts/strip_coff_debug.py:131-174 | When no section and no symbol is left, the result can be read exactly if there was no optional header |
| `CoffStrip.OptionalHeaderLost` | scripts/strip_coff_debug.py:131-174 | An object with an optional header whose stripped form cannot be read again |
| `CoffStrip.KeptAt` | scripts/strip_coff_debug.py:126-130 | A surviving section moves up by the number of removed sections before it, and nothing else moves it |
| `CoffStrip.RenumberedNamesSame` | scripts/strip_coff_debug.py:106-115 | The section number written into a surviving symbol denotes, among the surviving sections, the section that the old number denoted |
| `CoffStrip.RelocateAt` | scripts/strip_coff_debug.py:148-156 | Rewriting the relocations one by one leaves each with its own new symbol number and every other byte as it was |
| `CoffStrip.PlaceSectionsLay` | scripts/strip_coff_debug.py:131-161 | Once all sections are laid out, every row of the section table describes its own section's bytes in the file; laying out a later one disturbs no earlier one |
| `CoffStrip.SectionsBack` | scripts/strip_coff_debug.py:42-70 | Reading a file so laid out gives the sections that were laid out |
| `CoffSymbols.KeepSymbolsKept` | scripts/strip_coff_debug.py:98-122 | The walk over symbols and their auxiliary records keeps whole groups, and its index map is increasing, dense and true to the records |
| `CoffObject.KeepSymbols` | scripts/strip_coff_debug.py:98-122 | The kept table holds whole records, and its index map leads from records of the old table into it |
| `CoffStripper.ReadAllSections` | scripts/strip_coff_debug.py:32-70 | The reading loop yields the section table, or the first error in the order of the fields |
| `CoffStripper.KeepAllSymbols` | scripts/strip_coff_debug.py:98-122 | The loop that fills the index map and the new records computes the surviving symbols |
| `CoffStripper.ReplaceSymbols` | scripts/strip_coff_debug.py:148-156 | The loop over a section's relocations leads each through the index map, or refuses one whose symbol was removed |
| `CoffStripper.WriteSection` | scripts/strip_coff_debug.py:142-161 | Writing one section appends its aligned chunks and sets the three pointers of its row |
| `CoffStripper.StripDebugSections` | scripts/strip_coff_debug.py:31-174 | The step-by-step stripper computes the transformation whose meaning the lemmas above state, errors included |
| `CoffBytes.TableRead` | scripts/strip_coff_debug.py:32-70 | The section table, read from its bytes: each row gives the name, the raw bytes, the relocations and the line numbers of one section |
| `CoffBytes.HeaderSurvives` | scripts/strip_coff_debug.py:131-132 | Of the file header the machine type, the time stamp, the size of the optional header and the flags are the original bytes; the section count is the number of sections that are not debug sections |
| `CoffBytes.SectionsMoved` | scripts/strip_coff_debug.py:142-161 | Byte by byte, with an optional header or without: each section that is no debug section has its old row but for the pointers, which lead to its raw bytes, its line numbers and its relocations under new symbol numbers |
| `CoffErrors.StripsExactly` | scripts/strip_coff_debug.py:31-174 | Stripping succeeds exactly if the tables can be read, no relocation that stays names a symbol that goes, and everything lies below four gigabytes |
| `CoffErrors.KeepSymbolsExactly` | scripts/strip_coff_debug.py:98-122 | The walk over the symbols succeeds exactly if no group of auxiliary records runs past the end |
| `CoffErrors.RelocateExactly` | scripts/strip_coff_debug.py:148-156 | Relocations are rewritten exactly if each names a symbol that stays |
| `Physics.SweepFarthest` | scripts/kookie_websocket_session.py:400-436 | A sweep ends at the farthest point that can be reached before a face of a box or the edge of the world |
| `PhysicsLaws.NoTunnelling` | scripts/kookie_websocket_session.py:438-568 | For any boxes and any velocity a tick from outside all boxes ends outside all of them, exactly unless a ramp lifts the player into a box; with no ramp below, always |
| `PhysicsLaws.SettleMeans` | scripts/kookie_websocket_session.py:518-568 | Of all the tops that can be landed on the highest is; otherwise of all the bottoms that can be bumped into the lowest stops the rise |
| `PhysicsLaws.SettleOutside` | scripts/kookie_websocket_session.py:518-568 | The vertical step keeps the player outside all boxes if and only if the ramp floor does not lie under a box that is too low |
| `PhysicsLaws.SweepAlongOutside` | scripts/kookie_websocket_session.py:400-436 | A sweep along either axis never leaves the world or enters a box |
| `PhysicsLaws.BrakeSlows` | scripts/kookie_websocket_session.py:466-477 | Braking with an integer square root and floor division takes something off any velocity other than zero and never flips a sign |
| `PhysicsLaws.IdleStepSlows` | scripts/kookie_websocket_session.py:466-477 | The same for a whole idle tick on the ground, collisions included |
| `PhysicsLaws.IdleRunStops` | scripts/kookie_websocket_session.py:466-477 | Idle ticks on the ground bring any velocity to zero within as many ticks as it has units |
| `PhysicsLaws.StepBounded` | scripts/kookie_websocket_session.py:438-568 | A tick keeps the player in the world, the horizontal speeds within 8 and the vertical one within -16 and 8 |
| `PhysicsLaws.StepUsesJumps` | scripts/kookie_websocket_session.py:486-506 | A tick that does not end on the ground pays for every jump it makes out of the jumps that are left |
| `PhysicsLaws.FewJumps` | scripts/kookie_websocket_session.py:441-568 | Between two touches of the ground at most one jump and the air jumps fire, whatever mix of coyote time, buffered presses, ledges and ceilings |
| `PhysicsNumbers.JumpsExactly` | scripts/kookie_websocket_session.py:486-506 | A jump fires exactly on a press of this tick or one that is still kept, on the ground or while coyote ticks are left, or else in the air if no air jump was used; in the tick it sets the velocity to 8 |
| `PhysicsNumbers.JumpLifts` | scripts/kookie_websocket_session.py:438-568 | A tick that fires a jump, on the ground, in coyote time or in the air, ends at y + 8, at the sky or at the lowest ceiling in the way, whichever is lowest, and not on the ground |
| `PhysicsNumbers.FlightNumbers` | scripts/kookie_websocket_session.py:508-568 | The height and the vertical velocity after any number of ticks of free flight, in closed form |
| `PhysicsNumbers.MovedNumbers` | scripts/kookie_websocket_session.py:441-514 | The vertical velocity, the coyote ticks, the kept press and the air jumps before the vertical move, in numbers |
| `PhysicsNumbers.PushAdds` | scripts/kookie_websocket_session.py:447-465 | A push adds up to three units on the ground and one in the air to the velocity in its own direction, for each direction, up to eight |
| `PhysicsNumbers.DragTakes` | scripts/kookie_websocket_session.py:478-484 | Without a push the air takes one unit off each velocity |
| `PhysicsNumbers.BrakeTakes` | scripts/kookie_websocket_session.py:466-477 | Without a push the ground takes two units off the speed, in proportion, rounded down |
| `PhysicsNumbers.PlacesSwept` | scripts/kookie_websocket_session.py:516-517 | A tick sweeps along x and then, from where that ended, along z; a velocity that is cut short is lost |
| `PhysicsNumbers.RampNumbers` | scripts/kookie_websocket_session.py:384-397 | A ramp rises evenly between its two ends, rounded down, never below the ground |
| `PhysicsNumbers.RampCarries` | scripts/kookie_websocket_session.py:518-560 | Who walks or falls to a ramp ends on it, in numbers |
| `PhysicsNumbers.BoxCarries` | scripts/kookie_websocket_session.py:518-560 | Who falls past the top of a box ends on the ground of a top, and on none below that one |
| `PhysicsNumbers.GroundCarries` | scripts/kookie_websocket_session.py:518-568 | Away from boxes and ramps the player ends at height 1 on the ground, or falls on |
| `GameLaws.CommandPresentable` | scripts/kookie_websocket_session.py:647-816 | Every command in full mode keeps all that the validator will ask about in range, and counts one tick |
| `GameLaws.ResetPresentable` | scripts/kookie_websocket_session.py:764-816 | A reset brings any game, whatever was done to it in either mode, back into that range |
| `GameLaws.PlayedSceneExactly` | scripts/kookie_websocket_session.py:647-902 | For every game reached from a new one by any recognized commands and changes of mode, the full scene passes the separately written validator exactly if the clock is in range and neither the effect nor a flying projectile is on height zero |
| `GameLaws.FullSceneExactly` | scripts/kookie_websocket_session.py:850-902 | The same for every game with the ranges that all such play keeps |
| `GameLaws.PlayedCoherent` | scripts/kookie_websocket_session.py:647-816 | Those ranges are kept by every run of commands, in legacy mode, in full mode and across changes between them |
| `GameLaws.PresentableExactly` | scripts/kookie_websocket_session.py:850-902 | A game with those ranges is presentable exactly if nothing shown is on height zero |
| `GameLaws.FullSceneValid` | scripts/kookie_websocket_session.py:850-902 | The full scene of a presentable game passes the validator |
| `GameLaws.SceneFits` | scripts/kookie_websocket_session.py:850-902 | Its words fit the 32-bit wire words |
| `GameLaws.LegacySpecialSpoilsScene` | scripts/kookie_websocket_session.py:710-735 | A new game, one legacy special: no full scene of it is valid while the projectile flies |
| `GameLaws.LandedSpecialSpoilsScene` | scripts/kookie_websocket_session.py:710-735 | Six looks round later nothing flies any more, and still no full scene of it is valid |
| `RampClimb.RampLiftsRunner` | scripts/kookie_websocket_session.py:438-568 | In the game's own world, from a new game in full mode, three moves forward leave the player outside all boxes, and a move to the right then lifts them into one |
| `RampClimb.ClearMove` | scripts/kookie_websocket_session.py:400-506 | With nothing in the way a tick of a player on the ground moves them by their new velocity |
| `GameCommands.RecognizedExactly` | scripts/kookie_websocket_session.py:657-802 | Just thirteen pairs of command and value are carried out; every other raises |
| `GameCommands.Directions` | scripts/kookie_websocket_session.py:353-365 | For every yaw MOVE_BACK is against MOVE_FORWARD, and the commands to the left against those to the right, a quarter further on |
| `GameCommands.Resources` | scripts/kookie_websocket_session.py:647-816 | FIRE costs one round, MELEE ten of stamina and SPECIAL twenty-five, each exactly if there is enough; a pickup brings six rounds and twenty of stamina; MELEE lengthens the combo and SPECIAL ends it; a reset restores all; nothing else touches them |
| `GameCommands.Counters` | scripts/kookie_websocket_session.py:647-816 | Every command counts one tick and none the mode; health, position and what else each command leaves alone |
| `GameCommands.Bodies` | scripts/kookie_websocket_session.py:647-816 | Where each command takes the player: by the tick of physics in full mode, by its own step in legacy mode, to the start on a reset |
| `GameCommands.Looks` | scripts/kookie_websocket_session.py:647-816 | The yaw, pitch and state after each command |
| `GameCommands.LooksUndone` | scripts/kookie_websocket_session.py:677-680 | LOOK_RIGHT undoes LOOK_LEFT, and the other way round |
| `GameCommands.Projectiles` | scripts/kookie_websocket_session.py:710-755 | What flies after each command, and for FIRE where it starts and flies for each facing |
| `GameCommands.Strokes` | scripts/kookie_websocket_session.py:578-610 | A stroke takes 18 off the nearest actor in reach, the first of equals, and touches no other |
| `GameCommands.Effects` | scripts/kookie_websocket_session.py:647-816 | Which effect each command shows, and where |
| `GameAccounts.EveryRun` | scripts/kookie_websocket_session.py:647-816 | Over every run of commands and changes of mode, since the last reset: ammo is 24 less the shots, plus six for a pickup; stamina is 100 less ten a stroke and 25 a special, plus what the pickup gave; the combo counts the strokes since the last special |
| `GameAccounts.ClockCounts` | scripts/kookie_websocket_session.py:647-816 | The clock counts the commands |
| `GameScenes.SceneRead` | scripts/kookie_websocket_session.py:850-902 | Reading the words of a full scene gives back the game: the player, the camera, four actors, the projectile, the pickup and the effect |
| `GameScenes.SceneEnds` | scripts/kookie_websocket_session.py:850-902 | Behind it come the objects, with the beam over a pickup that is there, the labels that say which actor lives, and the checksum |
| `GameScenes.StripRead` | scripts/kookie_websocket_session.py:818-849 | The legacy scene and the snapshot, word by word |
| `GameSession.ValidCommandObeyed` | scripts/kookie_websocket_session.py:1464-1481 | A command that the validator let through never makes the game raise |
| `GameSession.ServePaced` | scripts/kookie_websocket_session.py:1437-1498 | Whatever frames come, the tick never passes the last game sequence, which never passes the maximum |
| `GameSession.FreshStarts` | scripts/kookie_websocket_session.py:283-328 | A new session's game is presentable |
| `GameSession.ProbeStarts` | scripts/kookie_websocket_session.py:1464-1481 | Whatever was played before it, a full-scene probe starts a full run exactly if nothing shown is on height zero |
| `GameSession.ResetStarts` | scripts/kookie_websocket_session.py:764-816 | A reset does so for a session in full mode, whatever its game was before |
| `GameSession.RunStarts` | scripts/kookie_websocket_session.py:1464-1485 | A probe of such a game, or a reset in full mode, is served, starts a full run and is answered with a valid message |
| `GameSession.ServeGoing` | scripts/kookie_websocket_session.py:1437-1498 | Every frame keeps what all sessions have in common: the pace and the ranges of the game |
| `GameSession.SceneExactly` | scripts/kookie_websocket_session.py:827-848 | The legacy scene is valid exactly if its projectile has landed or has at most six ticks to fly and is not far out |
| `GameSession.ShowExactly` | scripts/kookie_websocket_session.py:818-902 | What a session shows, in each of its three modes, can always be encoded and is valid exactly if there is room for projectile and effect |
| `GameSession.ReplyExactly` | scripts/kookie_websocket_session.py:1437-1498 | In every session each reply is valid exactly if it is not the answer to a command after which the session shows a game that there is no room for |
| `GameSession.ServeFull` | scripts/kookie_websocket_session.py:1437-1498 | Each frame of a full run keeps it one, and its reply decodes and validates |
| `GameSession.ServeAllFull` | scripts/kookie_websocket_session.py:1437-1498 | So does a full run of any length: the player stays in the world and every reply is valid |
| `GameSession.KookieStandable` | scripts/kookie_websocket_session.py:116-132 | The game's own boxes and ramps meet what these runs ask of a world |
| `GameServer.TalkGood` | scripts/kookie_websocket_session.py:1437-1515 | In a full run every message sent is valid, whatever bytes the client sends, the refusal that ends it included |
| `GameServer.TalkExactly` | scripts/kookie_websocket_session.py:1388-1515 | Whatever bytes a client sends from the first on, message number i is valid exactly if payload number i is not such a command |
| `GameSpoiled.SpecialSpoilsTalk` | scripts/kookie_websocket_session.py:1388-1515 | A client that says hello, casts a special in legacy mode and asks for the full scene, under whatever numbers, is sent two valid messages and then one that the decoder refuses |
| `GameSpoiled.CommandCarried` | scripts/kookie_websocket_session.py:1464-1481 | Such commands can be sent: each command, under each number, with its value and its checksum meets the session contract |
| `GameServer.ClientServed` | scripts/kookie_websocket_session.py:1388-1515 | Once a client that said hello has probed a game that can be shown, or has reset in full mode, every message it gets is valid, whatever else it sends |
| `GameServer.TalkFrom` | scripts/kookie_websocket_session.py:1437-1498 | Message number i answers payload number i of the session that the payloads before it lead to |
| `GameServer.ServeGame` | scripts/kookie_websocket_session.py:1459-1498 | A game message is answered, or found to break the protocol, as the model of the session has it |
| `GameServer.ServeFrame` | scripts/kookie_websocket_session.py:1450-1500 | The same for a frame of any kind, handshake included |
| `GameServer.ServeClient` | scripts/kookie_websocket_session.py:1388-1515 | The serving loop sends exactly the messages of the session that starts fresh, up to the first breach |
| `GameConversation.HelloExactly` | scripts/kookie_websocket_session.py:1453-1463 | At first exactly a hello is taken; the acknowledgement decodes to [2, 2, n, 1, 1, 1] and its checksum |
| `GameConversation.TakenExactly` | scripts/kookie_websocket_session.py:1464-1498 | From then on exactly pings, and game messages of five or seven words under rising numbers, are taken |
| `GameConversation.PingsAndProbes` | scripts/kookie_websocket_session.py:1464-1472 | A ping is answered by a pong, a probe by itself, read back from the bytes |
| `GameConversation.CommandAnswered` | scripts/kookie_websocket_session.py:1472-1496 | A command is played on the game, switches what it asks to be shown and no more, and is answered by the words that show the new game in the richest way asked for |
| `GameConversation.RefusalSaid` | scripts/kookie_websocket_session.py:1195-1198 | A breach of the protocol is answered once, by [2, 5, 1, 1] and its checksum |
| `AuthoritativeGame.AuthoritativeGameState.constructor` | scripts/kookie_websocket_session.py:283-328 | The fields start out as the new game |
| `AuthoritativeGame.AuthoritativeGameState.SweepHorizontal` | scripts/kookie_websocket_session.py:400-436 | The loop over the boxes ends at the farthest place of the sweep and stops the velocity where something was hit |
| `AuthoritativeGame.AuthoritativeGameState.LandingsAndCeilings` | scripts/kookie_websocket_session.py:520-537 | The loops collect all tops and all bottoms in the way, and only those |
| `AuthoritativeGame.AuthoritativeGameState.UpdateVertical` | scripts/kookie_websocket_session.py:518-568 | The vertical part of the tick, whose meaning SettleMeans states |
| `AuthoritativeGame.AuthoritativeGameState.StepFullPhysics` | scripts/kookie_websocket_session.py:438-568 | The whole tick on the fields is the step that the laws of motion are about |
| `AuthoritativeGame.AuthoritativeGameState.DamageNearestWorldActor` | scripts/kookie_websocket_session.py:589-609 | The first of the nearest actors alone is hurt, and the impact is where it stands |
| `AuthoritativeGame.AuthoritativeGameState.Melee` | scripts/kookie_websocket_session.py:681-709 | A melee's changes to stamina, combo, actors and effect, and to nothing else |
| `AuthoritativeGame.AuthoritativeGameState.Special` | scripts/kookie_websocket_session.py:710-735 | A special's changes, the projectile's height included, and to nothing else |
| `AuthoritativeGame.AuthoritativeGameState.Fire` | scripts/kookie_websocket_session.py:736-755 | A shot's changes, with and without ammunition, and to nothing else |
| `AuthoritativeGame.AuthoritativeGameState.Reset` | scripts/kookie_websocket_session.py:764-800 | A reset of every field but the tick and the mode |
| `AuthoritativeGame.AuthoritativeGameState.CollectPickup` | scripts/kookie_websocket_session.py:636-645 | A pickup in reach is taken once and fills ammunition and stamina up to their limits |
| `AuthoritativeGame.AuthoritativeGameState.UpdateLiquidEvent` | scripts/kookie_websocket_session.py:617-630 | Entering or leaving a liquid shows one effect at its surface |
| `AuthoritativeGame.AuthoritativeGameState.ApplyCommand` | scripts/kookie_websocket_session.py:647-816 | A whole command on the fields; one that is not recognized raises with only its preparations made |
| `SessionCodec.DecodeEncoded` | scripts/kookie_websocket_session.py:930-951 | Every message that the session can carry is encoded, and decodes to itself |
| `SessionCodec.EncodedDecodesExactly` | scripts/kookie_websocket_session.py:930-951 | The encoder takes invalid messages too; what it writes decodes exactly if the message is valid |
| `SessionCodec.EncodeDecoded` | scripts/kookie_websocket_session.py:1151-1173 | Every accepted wire is the encoding of what it decodes to: a message has one wire form |
| `SessionLayout.EncodesExactly` | scripts/kookie_websocket_session.py:930-951 | A message is encoded exactly if it names its kind and number rightly and keeps the limits |
| `SessionLayout.FrameLayout` | scripts/kookie_websocket_session.py:941-951 | The bytes of a frame: KWS1, version, kind, flags, number, count, checksum and words, highest byte first |
| `SessionLayout.SumIsWeight` | scripts/kookie_websocket_session.py:919-927 | The wire checksum is the sum of each byte times its place, the checksum left out, modulo 65536 |
| `SessionLayout.ChecksumIs` | scripts/kookie_websocket_session.py:905-916 | The message checksum is the number whose digits to the base 31 are 53 and the words, modulo 1000003 |
| `SessionLayout.DecodesExactly` | scripts/kookie_websocket_session.py:1151-1173 | Bytes decode to a frame exactly if they are the encoding of that frame and it meets the contract |
| `SessionContract.GreetingsExactly` | scripts/kookie_websocket_session.py:959-978 | For each number there is one hello, two acknowledgements, one ping and one pong |
| `SessionContract.CommandsExactly` | scripts/kookie_websocket_session.py:978-1012 | A game message of seven words is one of fifteen commands with its own value; of five, the probe |
| `SessionContract.ScenesExactly` | scripts/kookie_websocket_session.py:1024-1050 | The ranges of a legacy scene, word by word |
| `SessionContract.FullScenesExactly` | scripts/kookie_websocket_session.py:1050-1142 | The ranges of a full scene, its actors, objects and labels, in numbers |
| `SessionIntegrity.SingleByteChangeRejected` | scripts/kookie_websocket_session.py:905-1173 | Any change of a single byte of an accepted wire makes it rejected |
| `SessionIntegrity.WireChecksumMisses` | scripts/kookie_websocket_session.py:919-927 | The weighted sum misses a change of a byte it covers exactly if the byte is at offset 511 or 1023 and the change cancels modulo 65536 |
| `SessionIntegrity.WordMatters` | scripts/kookie_websocket_session.py:905-916 | The message checksum sees every change of one word that is not a multiple of 1000003 |
| `SessionIntegrity.StateMatters` | scripts/kookie_websocket_session.py:905-907 | Different checksum states stay different however the message goes on |
| `SessionIntegrity.EscapedChangeInvalid` | scripts/kookie_websocket_session.py:954-957 | What the wire sum misses the message checksum or the validator catches |
| `WebFrames.ChunksAgree` | native/kookie_web_server.c:140-183 | However a byte stream is cut into chunks, the same frames, replies and closing decision come out as when it comes whole |
| `WebFrames.FramesDecode` | native/kookie_web_server.c:154-182 | Masked client frames come out in order with their own payloads, before whatever follows them |
| `WebFrames.LiveMeansFrames` | native/kookie_web_server.c:154-182 | A stream on which the connection stays open is nothing but such frames, and the reactions are just theirs |
| `WebFrames.NextOfEncoded` | native/kookie_web_server.c:154-165 | The frame at the head of the input is read back as it was written |
| `WebFrames.EncodedOfNext` | native/kookie_web_server.c:154-165 | Whatever is read as a frame is the one way to write it that the parser accepts |
| `WebFrames.MaskedTwice` | native/kookie_web_server.c:162-164 | Unmasking undoes masking |
| `WebFrames.RestShort` | native/kookie_web_server.c:155-183 | An open connection has fewer than 1304 bytes left unread, and no whole frame among them |
| `WebOutput.Append` | native/kookie_web_server.c:133-139 | An append fails exactly if pending and new bytes exceed 65536; it adds the new bytes behind the pending ones, or changes nothing that is pending |
| `WebOutput.RunConserves` | native/kookie_web_server.c:133-139 | In every run of appends, sends and upgrades, refused ones included as long as they spare what is pending, what was sent followed by what is pending is what was accepted |
| `WebOutput.StepConserves` | native/kookie_web_server.c:133-319 | One step keeps that exactly if it is not a refused upgrade that spoils what is pending |
| `WebOutput.RefusalSparesExactly` | native/kookie_web_server.c:308-319 | An upgrade that is refused spares the pending bytes exactly if every pending byte that its response was written over already was that byte |
| `WebOutput.UpgradeSpoils` | native/kookie_web_server.c:308-319 | A pending not-found answer is spoilt by the response to any key |
| `WebUpgrade.UpgradeSpoilsRun` | native/kookie_web_server.c:298-319 | From the start: a socket is accepted, sends any whole request, and is answered that nothing is found; an upgrade asked for then is refused and changes the answer on a connection that lives on |
| `WebOutput.Output.Compact` | native/kookie_web_server.c:136 | Moving overlapping bytes forward from the first on leaves the pending bytes at the start |
| `WebOutput.Output.AppendOutput` | native/kookie_web_server.c:133-139 | The in-place append with its compaction, for success and failure |
| `WebOutput.Output.Advance` | native/kookie_web_server.c:201-216 | After the socket took some bytes the others are pending, and an emptied buffer starts anew |
| `WebOutput.Output.Upgrade` | native/kookie_web_server.c:308-319 | The response is written before the test that may refuse it |
| `WebStreamLaws.ParseIsScan` | native/kookie_web_server.c:140-183 | The parser of a connection does what the scan of its unread bytes says, in order, until something finds no room |
| `WebStreamLaws.StreamServed` | native/kookie_web_server.c:140-237 | With room in ring and output, a connection fed in any pieces ends as one scan of the whole stream would have it |
| `WebStreamLaws.StepLeavesRoom` | native/kookie_web_server.c:218-226 | No step fills the input of an open connection: the test for a full input never fires |
| `WebOutputLaws.StepActsOnOutput` | native/kookie_web_server.c:133-323 | Every step that a live connection survives, replies to frames included, acts on its output as such appends, sends and upgrades, and keeps what was accepted unless it is a refused upgrade that spoils it |
| `WebOutputLaws.LifeConserves` | native/kookie_web_server.c:133-323 | Through a whole life of a connection, whatever the others do to the ring, and as long as no refused upgrade spoils it, what was sent followed by what is pending is what was accepted |
| `WebServerLaws.EveryRun` | native/kookie_web_server.c:68-91 | In every interleaving an owed disconnect still in a slot waits for a full ring, and a live connection has room to read, an upgraded one fewer than 1304 unread bytes. As long as no number was given twice, each number's events are an accept, requests, frames and one disconnect, or a disconnect alone; a slot is free again only after that disconnect was polled |
| `WebServerLaws.RunSteady` | native/kookie_web_server.c:68-238 | Its first half holds in every run, whether numbers were given twice or not |
| `WebPayloads.MessagesInOrder` | native/kookie_web_server.c:68-238 | In every interleaving in which no number was given twice, the messages told and queued under a number are, in order and unchanged, the first ones of the stream that its connection read as client frames; all of them as long as it goes on reading, and its unread input is then what the stream holds behind its last whole frame |
| `WebPayloads.StepTells` | native/kookie_web_server.c:140-323 | Every step of a connection, pieces of any length and the upgrade over bytes already read included, keeps that |
| `WebPayloads.PerformTells` | native/kookie_web_server.c:166-182 | The messages among some actions are told in order: all, or the first ones if the connection dies of them |
| `WebServerLaws.NumbersApartExactly` | native/kookie_web_server.c:86-90 | In every run no number is given twice exactly if at most 2147483647 sockets were put into a slot |
| `WebServerLaws.NumbersStartAgain` | native/kookie_web_server.c:87-89 | The accept under the last number makes the first number the next one |
| `WebServerLaws.NumbersRunOut` | native/kookie_web_server.c:86-90 | There is a run in which a number is given twice |
| `WebServerLaws.RunConsistent` | native/kookie_web_server.c:68-238 | The invariant behind its second half is kept by every sequence of accepts, connection steps and polls that puts at most 2147483647 sockets into slots |
| `WebServerLaws.AcceptKeeps` | native/kookie_web_server.c:71-91 | An accept keeps it as long as a number is left that was not given, the last one included, with and without room for its event |
| `WebServerLaws.SlotStepKeeps` | native/kookie_web_server.c:140-323 | Every step of the worker or of a caller on one connection keeps it |
| `WebServerLaws.PollKeeps` | native/kookie_web_server.c:276 | A poll keeps it, when it frees a slot and when it queues a disconnect that was owed |
| `WebServerLaws.PhaseTold` | native/kookie_web_server.c:68-91 | The events of one number are a prefix of a connection's life exactly as far as its phase says |
| `WebServerLaws.PollSeesOne` | native/kookie_web_server.c:276 | Each poll brings the caller one event closer to having seen everything, disconnects still owed included |
| `WebServerLaws.PollsFreeTheDead` | native/kookie_web_server.c:276 | Polling until the queue is empty delivers every disconnect and frees every dead slot |
| `WebReactions.FrameServed` | native/kookie_web_server.c:140-183 | What one frame of any opcode does: text and binary are delivered unmasked, a ping is answered by 8a, a close by 88, any other drops |
| `WebReactions.FramesServed` | native/kookie_web_server.c:140-183 | A stream of data, ping and pong frames delivers exactly the (opcode, payload) of its data frames in order and sends exactly the pongs, whatever follows |
| `WebReactions.CloseServed` | native/kookie_web_server.c:140-183 | A close among them is answered last with its own payload, and ends the stream |
| `WebReactions.OthersDropped` | native/kookie_web_server.c:140-183 | Any other opcode ends the stream with nothing sent for it |
| `WebReactions.LiveStreamCarries` | native/kookie_web_server.c:140-183 | A stream that a connection lives through is nothing but such frames, and its messages are theirs |
| `WebReactions.RefusedExactly` | native/kookie_web_server.c:140-183 | A frame is refused exactly for reserved bits, a missing mask or a length that is too long |
| `WebReactions.XorIsDiffering` | native/kookie_web_server.c:164 | Unmasking by exclusive or, on the bits of the two numbers |
| `WebSteps.StepExactly` | native/kookie_web_server.c:70-70 | Every step but reading and upgrading: exactly when a connection dies, and what it has to send if it lives |
| `WebSteps.RequestServed` | native/kookie_web_server.c:112-131 | A request is handed over with all bytes up to its first blank line; what follows stays unread |
| `WebSteps.RequestUnfinished` | native/kookie_web_server.c:140-183 | An unfinished head hands nothing over, and costs the connection its life at 8192 bytes |
| `WebSteps.UnfinishedSeenExactly` | native/kookie_web_server.c:143-152 | The source's test for an unfinished head is right exactly from three bytes on; with one or two it would take four |
| `WebSteps.PerformServes` | native/kookie_web_server.c:133-183 | Actions are carried out in order exactly if the ring and the output have room for all of them |
| `WebSteps.ReceiveServes` | native/kookie_web_server.c:140-183 | Reading frames queues their messages and appends their pongs, and leaves the start of the next unread; without room the connection dies |
| `WebSteps.ReceiveCloses` | native/kookie_web_server.c:140-183 | Reading a close marks the connection to close behind its answer |
| `WebSteps.ReceiveRefuses` | native/kookie_web_server.c:140-183 | Reading any other frame ends the connection after the messages before it |
| `WebSteps.UpgradeExactly` | native/kookie_web_server.c:298-323 | An upgrade is accepted exactly with a key, once, and with nothing to send; the bytes read already are frames then |
| `WebSlots.AcceptExactly` | native/kookie_web_server.c:71-91 | A socket gets the first free slot under the next number, and its event, or is dead at once without room for that |
| `WebSlots.CloseExactly` | native/kookie_web_server.c:280 | The live connection with the number dies, and no other |
| `WebSlots.PollExactly` | native/kookie_web_server.c:276 | A poll takes the first event, frees the slots it ends, and queues the first disconnect that is owed |
| `WebConnection.Connection.Drop` | native/kookie_web_server.c:70 | A drop forgets the output and queues one disconnect, or notes that it is owed |
| `WebConnection.Connection.Consume` | native/kookie_web_server.c:165 | Moving the unread bytes down in place leaves just what follows the frame |
| `WebConnection.Connection.TakeFrame` | native/kookie_web_server.c:154-165 | The header tests, the lengths and the unmasking loop read the first frame, or wait, or find a breach |
| `WebConnection.Connection.ParseFrames` | native/kookie_web_server.c:140-183 | The parsing loop over the input buffer is the parser that ParseIsScan is about |
| `WebConnection.Connection.ParseRequest` | native/kookie_web_server.c:142-153 | A request is handed over up to the end of its headers, also when it is longer than the nominal maximum |
| `WebConnection.Connection.Parse` | native/kookie_web_server.c:140-183 | Both modes of the parser on the buffers |
| `WebConnection.Connection.Read` | native/kookie_web_server.c:218-228 | Bytes that come are appended behind the unread ones and parsed |
| `WebConnection.Connection.Flush` | native/kookie_web_server.c:201-216 | What the socket took leaves the output |
| `WebConnection.Connection.Drain` | native/kookie_web_server.c:217 | A connection that is to close does so once nothing is pending |
| `WebConnection.Connection.CloseAfterOutput` | native/kookie_web_server.c:281-293 | It is marked to close, and closed at once if nothing is pending |
| `WebConnection.Connection.UpgradeWebSocket` | native/kookie_web_server.c:298-324 | An upgrade succeeds only from a keyed request with nothing pending, and then the bytes already read are parsed as frames |
| `WebServerState.State.constructor` | native/kookie_web_server.c:262-275 | All slots are free and the ring is empty |
| `WebServerState.State.Accept` | native/kookie_web_server.c:71-91 | The first free slot is taken under the next number; with none, nothing changes |
| `WebServerState.State.Read` | native/kookie_web_server.c:196-237 | Reading on one connection touches its slot and the ring alone |
| `WebServerState.State.CloseClient` | native/kookie_web_server.c:280 | Just the live connection with the number is closed, and it tells whether there is one |
| `WebServerState.State.Poll` | native/kookie_web_server.c:276 | The oldest event is handed over; a disconnect frees its slot; one disconnect that is owed is queued |
| `Ring.Ring.Push` | native/kookie_web_server.c:68 | The ring refuses exactly when full, and otherwise holds one item more at its end |
| `Ring.Ring.Take` | native/kookie_web_server.c:276 | The item that was first comes out and the others stay in order |
| `JobsRuns.EveryRun` | native/kookie_jobs.c:139-363 | In every interleaving the ring holds, without repeats, exactly the used slots that are neither running nor completed, each running slot has one worker, no job is reported twice, and none is lost; so PollReports applies to every poll |
| `JobsRuns.PollReports` | native/kookie_jobs.c:289-333 | A poll reports a job never reported before, and its fields are those that were submitted |
| `JobsRuns.TurnWorks` | native/kookie_jobs.c:139-178 | Once the pool stops, every worker's take, finish or exit lowers the work that is left by one |
| `JobsRuns.CallerLeavesWork` | native/kookie_jobs.c:238-363 | No caller adds work to a stopped pool |
| `JobsRuns.StoppedPoolEnds` | native/kookie_jobs.c:349-363 | A stopped pool ends after exactly that many worker turns, in any order, with all workers gone and every accepted job completed |
| `JobsOrders.SubmitExactly` | native/kookie_jobs.c:238-287 | An order is accepted exactly if it is in range, the pool is not stopping and a slot is free; it goes to the first free slot and the end of the queue |
| `JobsOrders.ReleasedIsTaken` | native/kookie_jobs.c:238-347 | A slot that was released is free again: the next order in range gets a slot no later than it |
| `JobsOrders.FirstComeFirstServed` | native/kookie_jobs.c:136-160 | In every run the waiting orders are the last ones accepted, in order, and a worker takes the first of them with all that was ordered |
| `JobsOrders.PollExactly` | native/kookie_jobs.c:289-305 | A poll reports the first complete job that was not reported, exactly if there is one |
| `JobsOrders.ReadExactly` | native/kookie_jobs.c:307-347 | A job can be read exactly between its report and its release, and is what was ordered |
| `Jobs.SubmitSound` | native/kookie_jobs.c:238-287 | A submission keeps slots, ring and workers in agreement |
| `Jobs.LookSound` | native/kookie_jobs.c:145-162 | So does a worker that takes a job, waits or leaves |
| `Jobs.FinishSound` | native/kookie_jobs.c:163-172 | So does a worker that hands its job back |
| `Jobs.PollSound` | native/kookie_jobs.c:289-305 | So does a poll |
| `Jobs.ReleaseSound` | native/kookie_jobs.c:335-347 | So does a release, also of a token that may not be released |
| `Jobs.StopSound` | native/kookie_jobs.c:349-363 | So does the signal to stop |
| `JobsState.State.Submit` | native/kookie_jobs.c:238-287 | The slot, the ring and the wake-ups of a submission on the arrays |
| `JobsState.State.Look` | native/kookie_jobs.c:145-162 | What a worker does under the lock before its job |
| `JobsState.State.Finish` | native/kookie_jobs.c:166-171 | What it does after it |
| `JobsState.State.Poll` | native/kookie_jobs.c:289-305 | The first completed job not reported yet is marked as reported |
| `JobsState.State.Release` | native/kookie_jobs.c:335-347 | Just a reported job gives its slot up |
| `JobsState.State.Close` | native/kookie_jobs.c:353-356 | The pool stops and every sleeper is woken |
| `SipHash.RunApart` | native/kookie_transport.c:229-246 | No two states have the same outcome: every run of round steps can be undone |
| `SipHash.RoundsApart` | native/kookie_transport.c:229-277 | Nor do any number of rounds make two states one |
| `SipHash.RotlBack` | native/kookie_transport.c:217-219 | Turning a word on through all its 64 bits gives it back |
| `SipNumbers.StartIs` | native/kookie_transport.c:248-254 | The four words start as the text of the paper, mixed with the two halves of the key in turn |
| `SipNumbers.RoundIs` | native/kookie_transport.c:229-246 | A round adds, turns and mixes the four words as the paper draws it, by 13, 16, 21 and 17 bits and twice by 32 |
| `SipNumbers.RotlIs` | native/kookie_transport.c:217-219 | A turn is the word times a power of two, modulo 2^64, and the bits that left it at the top |
| `SipTwins.MacC` | native/kookie_transport.c:248-277 | The C code computes SipHash-2-4 of data of any length |
| `SipTwins.MacInPython` | scripts/kookie_rendezvous.py:47-75 | The tag of Python's loops, for data of any length |
| `SipTwins.ShortTwins` | scripts/kookie_rendezvous.py:47-75 | For every key and all data of fewer than 256 bytes both tags are the same |
| `SipTwins.TwinsAgreeExactly` | scripts/kookie_rendezvous.py:60-75 | For data of any length both reach the same final state exactly if the length's overflow falls on bits that are set already |
| `SipTwinsApart.CoveredTwins` | scripts/kookie_rendezvous.py:47-75 | In that case, and for data of any length, both tags are the same |
| `SipTwinsApart.LongTwinsPart` | scripts/kookie_rendezvous.py:60-75 | For every key, all data of whole words and all ends of fewer than seven bytes there is a byte to put between them with which the two final states differ, if the whole makes an odd number of 256 bytes and a rest |
| `SipTwinsApart.DatagramTwinsPart` | scripts/kookie_rendezvous.py:99-131 | So there are datagrams that both programs tag from different final states: for every key and number, every even payload with one word more that makes such a length (260 bytes, for one) has such a last word |
| `SipTwins.LastPyFits` | scripts/kookie_rendezvous.py:60-66 | Python's last word fits 64 bits exactly for data of fewer than 256 bytes |
| `SipTwins.RotatePyHigh` | scripts/kookie_rendezvous.py:28-29 | What Python's rotation makes of bits above the 64th |
| `SipTwins.RotatePyTurns` | scripts/kookie_rendezvous.py:28-29 | On 64-bit words Python's rotation is the rotation |
| `SipTwins.RoundsPyWords` | scripts/kookie_rendezvous.py:32-44 | On words below 2^64 any number of Python's rounds gives the C words: no value on the way leaves 64 bits |
| `SipTwins.RotateCTurns` | native/kookie_transport.c:217-219 | C's rotation by shifts is the rotation |
| `SipTwins.SipState.Round` | native/kookie_transport.c:229-246 | The four quarters that write through the pointers make one round |
| `SipTwins.SipRoundPy` | scripts/kookie_rendezvous.py:32-44 | Python's updates of the list make the same round |
| `Datagrams.UnpackPacked` | scripts/kookie_rendezvous.py:123-131 | Every message that can be carried is unpacked from its datagram |
| `Datagrams.PackUnpacked` | scripts/kookie_rendezvous.py:99-120 | A datagram that is accepted is the only one that carries its message |
| `Transport.AcceptedInOrder` | native/kookie_transport.c:853-985 | Over a network that drops, repeats and reorders, replays included, the accepted payloads are an in-order subsequence of the payloads sent, each at most once |
| `Transport.NextAccepted` | native/kookie_transport.c:906-985 | The next datagram in line is always accepted, so with nothing lost everything arrives |
| `Transport.ReplaySendsOld` | native/kookie_transport.c:890-904 | A replay hands over nothing that was not sent before |
| `Transport.MoveConsistent` | native/kookie_transport.c:833-985 | Every step of sender, network and receiver keeps the numbers of both ends and the history in agreement |
| `TransportWords.MessageSet` | native/kookie_transport.c:833-851 | Words set in any order and as often as one likes: the message is the words that were set last |
| `TransportWords.WordsArrive` | native/kookie_transport.c:833-1010 | Begun, set word by word and committed, a message arrives as just those words under the next number |
| `TransportWords.CommitExactly` | native/kookie_transport.c:853-888 | A message is sent exactly with words, a peer and a number left; one that the socket did not take is given up |
| `TransportWords.TakenExactly` | native/kookie_transport.c:906-1010 | A datagram is taken exactly if it comes from the peer and packs a message under a higher number |
| `TransportWords.DatagramLayout` | native/kookie_transport.c:862-880 | The bytes of a datagram: KOOK, version, count, number, the halves of the tag, the words, highest byte first |
| `TransportState.Slot.SendBegin` | native/kookie_transport.c:833-841 | A message is begun with a count in range, or refused |
| `TransportState.Slot.SendWord` | native/kookie_transport.c:843-851 | One staged word is set, or nothing |
| `TransportState.Slot.SendCommit` | native/kookie_transport.c:853-888 | The wire words and the tag are built by the loops; a failed send leaves the number as it was |
| `TransportState.Slot.ReplayLastDatagram` | native/kookie_transport.c:890-904 | The very bytes of the last datagram, if there is one and a peer |
| `TransportState.Slot.ReceiveDatagram` | native/kookie_transport.c:906-985 | A datagram is accepted just if its sender, length, tag, magic and number are right; otherwise words of old messages are out of reach |
| `RendezvousLaws.EveryRun` | scripts/kookie_rendezvous.py:189-255 | After any datagrams and timeouts every room has one or two clients, no address is in two rooms, and there are at most 4096 rooms |
| `RendezvousLaws.HandleSound` | scripts/kookie_rendezvous.py:189-243 | Whatever bytes come from wherever, the rooms stay so, and the numbers in range |
| `RendezvousLaws.ExpireSound` | scripts/kookie_rendezvous.py:244-255 | Expiry keeps them so and opens no room |
| `RendezvousLaws.HelloAnswered` | scripts/kookie_rendezvous.py:229-243 | A lone client is told to wait; of two each is told the other's address, in frames that unpack to that under the client's next number |
| `RendezvousLaws.ReplyReads` | scripts/kookie_rendezvous.py:172-174 | Every reply is accepted by the unpacker with the number and the payload it was sent with |
| `RendezvousLaws.PutOffExactly` | scripts/kookie_rendezvous.py:199-228 | A request changes nothing and says nothing exactly if its number was heard before or its room, or the set of rooms, is full |
| `RendezvousLaws.SequenceRises` | scripts/kookie_rendezvous.py:199-211 | Within one stay only rising numbers are let in |
| `RendezvousLaws.ReplayAfterLeave` | scripts/kookie_rendezvous.py:199-231 | The datagram of a hello is passed over while its sender stays; once they have left, the very same bytes are let in and answered again |
| `RendezvousRooms.RequestMeans` | scripts/kookie_rendezvous.py:189-243 | What a request does to each room, told from its one or two clients: the sender leaves other rooms, is let in, refreshed or put off, and all answers go out with their words |
| `RendezvousRooms.RequestExactly` | scripts/kookie_rendezvous.py:190-198 | A datagram is a request exactly if it packs six words in their ranges under a number that is not zero |
| `RendezvousRooms.GreetMeans` | scripts/kookie_rendezvous.py:234-243 | Who is alone is told to wait; of two, each is told the four bytes and the port of the other |
| `RendezvousRooms.ExpireMeans` | scripts/kookie_rendezvous.py:244-255 | After an expiry a room holds exactly the clients heard in the last thirty seconds, in order and unchanged |
| `RendezvousState.State.FindClient` | scripts/kookie_rendezvous.py:176-181 | The loops find the room and the client with the address, if any |
| `RendezvousState.State.RemoveClient` | scripts/kookie_rendezvous.py:183-187 | The client leaves, and an empty room with it |
| `RendezvousState.State.JoinRoom` | scripts/kookie_rendezvous.py:212-228 | A newcomer enters or opens the room, unless it or the set of rooms is full |
| `RendezvousState.State.AdmitClient` | scripts/kookie_rendezvous.py:199-228 | One who comes again is refreshed, one from another room is moved over |
| `RendezvousState.State.GreetClient` | scripts/kookie_rendezvous.py:234-243 | The replies that go out and the numbers that they use up |
| `RendezvousState.State.HandleDatagram` | scripts/kookie_rendezvous.py:189-243 | The whole handler, silent on what it does not accept |
| `RendezvousState.State.ExpireClients` | scripts/kookie_rendezvous.py:244-255 | The loop over the rooms keeps just the clients that were heard of lately |
| `KutterFrames.PackedIsEncoded` | native/kookie_kutter_sync.c:123-142 | For every message that the session can carry, the C packer writes the bytes that the Python encoder writes |
| `KutterFrames.DecodedIsDelivered` | native/kookie_kutter_sync.c:143-158 | What the Python decoder accepts the C side delivers, with the same words |
| `KutterFrames.PackedDeliveredExactly` | native/kookie_kutter_sync.c:123-158 | A packed message is delivered unchanged if and only if its kind word is a byte, and never changed |
| `KutterFrames.DeliveredIsPacked` | native/kookie_kutter_sync.c:143-158 | What is delivered packs into the bytes that came: no two packets deliver the same words |
| `KutterFrames.PackMessage` | native/kookie_kutter_sync.c:123-142 | The loops that fill the buffer write the packet, or refuse too few or too many words |
| `KutterFrames.ReadMessage` | native/kookie_kutter_sync.c:143-158 | The tests and the loop that read a packet deliver its words or nothing |
| `Kutter.OldWorkerInert` | native/kookie_kutter_sync.c:153-246 | A worker whose number is not the present epoch's changes nothing that is shared, whatever it is doing |
| `Kutter.MistakenExactly` | native/kookie_kutter_sync.c:48-62 | A worker of an earlier epoch has the present one's 32-bit number exactly if a multiple of 2^32 epochs were begun since it was started |
| `Kutter.FewEpochsTimely` | native/kookie_kutter_sync.c:265-287 | With at most 2^32 epochs begun in a run that never happens |
| `KutterEpochs.EpochsRunOut` | native/kookie_kutter_sync.c:224-287 | There is a run in which it does happen, and a stage that was committed once goes out twice |
| `KutterEpochs.ClosingsCount` | native/kookie_kutter_sync.c:287 | Each close begins an epoch, whatever is under way |
| `Kutter.EveryRun` | native/kookie_kutter_sync.c:153-287 | In every interleaving in which no worker acts while its number has come round, within the present epoch the stages go out unchanged, each once and in order; none is overwritten while it waits; and the messages read are the first of those delivered |
| `Kutter.MoveConsistent` | native/kookie_kutter_sync.c:153-287 | Every step of caller and workers keeps the invariant behind it, but that of a worker whose number has come round |
| `KutterWords.MessageStaged` | native/kookie_kutter_sync.c:282-284 | A message begun, staged word by word and committed is what waits to go out, whatever was in the buffer |
| `KutterWords.MessageRead` | native/kookie_kutter_sync.c:285-286 | Reading as many words as there are yields the first message in order, and the next one comes up |
| `KutterWords.MessageComesIn` | native/kookie_kutter_sync.c:143-157 | A message packed at the far end is the last that the caller gets to read |
| `KutterWords.TurnChanges` | native/kookie_kutter_sync.c:220-247 | Which turn of a worker changes what is shared, and how |
| `KutterState.State.Open` | native/kookie_kutter_sync.c:252-280 | A new epoch with nothing staged and nothing received begins, unless one is under way |
| `KutterState.State.SendBegin` | native/kookie_kutter_sync.c:282 | A stage is begun only when connected and nothing is staged or pending |
| `KutterState.State.SendWord` | native/kookie_kutter_sync.c:283 | Words are staged in order only |
| `KutterState.State.SendCommit` | native/kookie_kutter_sync.c:284 | Only a complete stage is committed |
| `KutterState.State.ReceiveWord` | native/kookie_kutter_sync.c:286 | Reading the last word of a message removes it |
| `KutterState.State.Close` | native/kookie_kutter_sync.c:287 | The epoch ends and its stage and messages with it |
| `KutterState.State.Connected` | native/kookie_kutter_sync.c:225-227 | A connected worker opens the session only in its own epoch, and otherwise leaves without a trace |
| `KutterState.State.Look` | native/kookie_kutter_sync.c:230-236 | A worker copies the pending stage only in its own epoch |
| `KutterState.State.Sent` | native/kookie_kutter_sync.c:239 | The stage is taken off only by a worker of its epoch |
| `KutterState.State.Deliver` | native/kookie_kutter_sync.c:153-157 | A message goes to the end of the ring in its own epoch, and waits while the ring is full |
| `KutterState.State.LeaveWorker` | native/kookie_kutter_sync.c:245 | A worker that leaves reports it only in its own epoch |
| `GpuScene.BatchIsPushes` | native/kookie_sdl_adapter.c:2706-2765 | A batch is taken if and only if it is rightly described, its checksum is right and each vertex would be taken alone; it then leaves what the loop of pushes leaves, and a refused one changes nothing |
| `GpuScene.ShownFrozen` | native/kookie_sdl_adapter.c:2182-2251 | While a reload is pending no step but its activation or a device reset, and so no cancellation and no recovery of a lost device either, touches the shown scene, generation or checksum |
| `GpuScene.ActivationAdvances` | native/kookie_sdl_adapter.c:2229-2251 | An activation raises the generation and installs the committed scene prepared for it |
| `GpuScene.GenerationRises` | native/kookie_sdl_adapter.c:2182-2251 | The shown generation moves exactly at an activation, and only up |
| `GpuScene.EveryRun` | native/kookie_sdl_adapter.c:2182-2846 | Over every run without a device reset, recoveries included, the staging invariant holds and the shown generation never falls |
| `GpuScene.RecoveryKeeps` | native/kookie_sdl_adapter.c:1140-1161 | A recovery keeps what is shown, its generation, checksum and fence; a reload can be staged after it as after a cancellation, and the open scene takes no batch |
| `GpuScene.CancelNothing` | native/kookie_sdl_adapter.c:2197-2207 | With nothing pending, cancelling succeeds exactly for generation 0; the open scene then takes no batch |
| `GpuBatch.UploadIsPushes` | native/kookie_sdl_adapter.c:2706-2775 | For every list of vertices whose fields fit 32 bits: the batch of their encoding succeeds exactly if the scalar pushes do, and leaves what they leave |
| `GpuBatch.VerticesRead` | native/kookie_sdl_adapter.c:2725-2745 | Decoding encoded vertices gives the vertices: resource, x, y, depth, u and v, little-endian |
| `GpuBatch.ChecksumIsTotal` | native/kookie_sdl_adapter.c:2725-2745 | The checksum of a batch is the sum of all fields of all its vertices |
| `GpuBatch.RunWritten` | native/kookie_sdl_adapter.c:2777-2825 | A text run is committed with just its style and its codepoints, and never empty |
| `GpuBatch.SceneBuilt` | native/kookie_sdl_adapter.c:2611-2846 | A scene can be committed exactly once as many valid vertices were pushed as it was begun for, and then holds just them |
| `GpuReload.ReloadShows` | native/kookie_sdl_adapter.c:2182-2262 | Staged, begun, pushed, committed and activated, a later generation is what is shown, under its number and checksum; the one before is retired and the fence moves by one |
| `GpuReload.BeginExactly` | native/kookie_sdl_adapter.c:2611-2641 | Which scene a begin clears, exactly when it may, and how its room grows |
| `GpuSceneBuffers.Buffers.ReserveData` | native/kookie_sdl_adapter.c:309-338 | The vertex buffer grows by half of what is asked for, 64 vertices at least, and keeps its vertices; without memory nothing changes |
| `GpuSceneBuffers.Buffers.ReserveCodepoints` | native/kookie_sdl_adapter.c:373-400 | When the codepoint buffer moves, every committed run still denotes its own codepoints |
| `GpuSceneBuffers.Buffers.Repoint` | native/kookie_sdl_adapter.c:388-398 | The loop makes every run point into the new buffer at its own start |
| `GpuSceneBuffers.Buffers.Begin` | native/kookie_sdl_adapter.c:2611-2642 | A scene is begun empty, with room for its vertices |
| `GpuSceneBuffers.Buffers.PushVertex` | native/kookie_sdl_adapter.c:2651-2671 | One valid vertex is added at the end, or nothing |
| `GpuSceneBuffers.Buffers.CheckBatch` | native/kookie_sdl_adapter.c:2729-2746 | The checking loop finds out whether all vertices are valid, and their checksum |
| `GpuSceneBuffers.Buffers.PushVertexBatch` | native/kookie_sdl_adapter.c:2706-2765 | The batch upload on the buffer is the one that BatchIsPushes is about |
| `GpuSceneBuffers.Buffers.TextRunBegin` | native/kookie_sdl_adapter.c:2777-2796 | A run is opened at the end of the codepoints, with room for it |
| `GpuSceneBuffers.Buffers.TextCodepoint` | native/kookie_sdl_adapter.c:2798-2809 | The codepoint is added to the open run, and all committed runs keep theirs |
| `GpuSceneBuffers.Buffers.TextRunCommit` | native/kookie_sdl_adapter.c:2811-2825 | The committed run denotes exactly the codepoints pushed to it |
| `GpuSceneBuffers.Buffers.CommitScene` | native/kookie_sdl_adapter.c:2827-2846 | A scene is committed only when complete, with no run open |
| `GpuState.State.ResetReload` | native/kookie_sdl_adapter.c:537-542 | The reload starts over and the pending buffers are given up |
| `GpuState.State.RecoverDevice` | native/kookie_sdl_adapter.c:1140-1161 | What is shown is noted before the reset and put back after it, if a device could be opened |
| `GpuState.State.StageReload` | native/kookie_sdl_adapter.c:2182-2195 | A later generation is made pending, with the pending scene's buffers given up |
| `GpuState.State.CancelReload` | native/kookie_sdl_adapter.c:2197-2207 | The pending generation is given up and the shown scene left alone |
| `GpuState.State.ActivatePending` | native/kookie_sdl_adapter.c:2229-2251 | The pending scene's buffers become the shown ones, by reference, only when ready |
| `GpuState.State.BeginStaging` | native/kookie_sdl_adapter.c:2611-2642 | Staging goes to the pending scene during a reload and to the shown one otherwise |
| `GpuState.State.PushOne` | native/kookie_sdl_adapter.c:2651-2671 | A vertex goes to whichever scene is open |
| `GpuState.State.PushBatchOf` | native/kookie_sdl_adapter.c:2706-2765 | So does a batch |
| `GpuState.State.CommitStaged` | native/kookie_sdl_adapter.c:2827-2846 | So does a commit |

## Left out

- CoffStrip.SectionsSurvive, CoffStrip.RelocationsResolve: for objects without an optional header only. With one, a reader looks for the section table where the file does not have it, and what it finds there depends on bytes that happen to stand there; OptionalHeaderShifts and BareObjectReadable say when it finds nothing.
- CoffStrip.StripTwice: for objects with an optional header only if there is nothing to strip, for the same reason.
- CoffStrip.SymbolsSurvive: the contents of auxiliary records are copied as they are, and nothing is said about indices inside them.
- SessionIntegrity.SingleByteChangeRejected: only single bytes; two changes can cancel each other in both checksums.
- GameSession.KookieStandable: worlds whose boxes or ramps do not fit between the lowest and the highest height, or with a ramp of no width (the source divides by it), are outside what the runs ask for.
- WebServerLaws.EveryRun, WebServerLaws.RunConsistent, WebPayloads.MessagesInOrder: the order of a number's events is not claimed once a number was given twice.
- WebStreamLaws.StreamServed: a ring or an output without room ends the connection, and then only ParseIsScan says what was done before.
- WebOutput.RunConserves, WebOutputLaws.StepActsOnOutput, WebOutputLaws.LifeConserves: a refused upgrade that spoils what is pending breaks them; StepConserves and RefusalSparesExactly say when.
- WebConnection.Connection.ParseRequest: whether the headers hold a key, and the response that is computed from it, are arguments. A head of one or two bytes waits for more (`WebSteps.UnfinishedSeenExactly`).
- Transport.AcceptedInOrder: that nobody without the key makes a valid tag is taken for granted, and a session reset starts a new run.
- SipTwins.TwinsAgreeExactly, SipTwinsApart.LongTwinsPart, SipTwinsApart.DatagramTwinsPart: where the final states differ, they might still fold to the same tag.
- Kutter.EveryRun, Kutter.MoveConsistent: not claimed once a worker acts with its number come round; EpochsRunOut shows that they fail then.
- AuthoritativeGame.AuthoritativeGameState.ApplyCommand: the fields are grouped into records (the player's body, the projectile, the pickup, the effect's place).
- RendezvousState.State.HandleDatagram: the dictionary of rooms is a sequence of rooms with distinct numbers, in the order in which they were opened.
- GpuState.State.ActivatePending: GPU resources, fences and draw lists are not part of the model; allocation may fail at any reservation.
- Sockets, TLS, libcurl, thread and mutex primitives, clocks and timeouts: nondeterministic arguments of the steps. Locked regions are atomic; the worker's pass over all connections is split into a step for each, which allows more interleavings than the code.
- HTTP headers, bearer tokens, the SHA-1 accept key, key files, environment variables and metrics.
- The staging bytes of the web server's output between begin and commit: an append of the whole message.
- The assembly of WebSocket frames by libcurl in the sync client: a packet comes whole or the worker gives up.
- The persistence adapter, the UI renderer, SIMD dispatch, audio, windows, shaders and the release and evidence scripts.
