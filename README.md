# Reversi UDP server — a verified model

This project models the core of `server/reversi_server.py`, the Python
server of a networked Reversi (Othello) game. Clients exchange small
binary frames with the server over UDP. The server keeps three tables:

- players, filed by address and by id;
- lobbies, filed by id;
- each lobby's 8×8 board, its seats, turn, status, winner and chat history.

The model has these modules:

- `Rules` (rules.dfy): the rules of the game as values. A board is a
  `Grid` (`seq<seq<int>>`, read as `g[y][x]`) with cells Black = 0,
  White = 1 and Empty = 255. It defines the scan along each of the eight
  directions, bracketing, legal moves (sorted as Python sorts `(x, y)`
  tuples), the flips of a move, the placed board, piece counts, the winner,
  game over and the CPU's scoring.
- `RulesProofs` and `BoardProofs` (rules_proofs.dfy, board_proofs.dfy):
  the properties of those rules.
  - Legality agrees with an independent "sandwich" definition stated by
    ray arithmetic.
  - The flips of a move are distinct cells, all of them the opponent's.
  - Placing a legal move changes exactly the placed cell and the flips,
    and moves the counts by `1 + |flips|` and `-|flips|`.
  - On the starting board there are two pieces each and Black's openings
    are (2,4), (3,5), (4,2), (5,3).
  - Game over means neither side can move.
- `Engine` (engine.dfy): the imperative rules functions on an
  `array2<int>` board, each proved against its `Rules` specification:
  - `create_initial_board`, `clone_board`, `find_legal_moves`;
  - `apply_player_move`, `count_pieces`;
  - `check_game_over`, `cpu_select_move`.
- `Frames` (frames.dfy): the binary frames the server parses and builds.
  - Parsed: HELLO, CHAT.
  - Built: WELCOME, CHAT_MESSAGE, GAME_STATE, ERROR.
  - A decoder for each built frame, with round-trip lemmas in both
    directions.
  - Big-endian packing, as `struct.pack("!H"/"!I"/"!Q")` does it.
- `Lobbies` (lobby.dfy): the `Player` and `Lobby` classes. The lobby's
  state changes in place. The module covers `add_chat` with its 50-entry
  history, the move and turn switching of `_handle_place`, and seat
  removal.
- `Server` (server.dfy): the `ReversiUDPServer` handlers as methods of the
  class `ReversiServer`. They update its maps in place. Every `sendto` is
  an append to `outbox`, the list of datagrams sent so far. These values
  are parameters of the handlers that use them:
  - the random player id, lobby id and first turn;
  - the clock.

  A handler that raises, such as `data[1]` on a one-byte frame, returns
  `raised`, and `Respond`, the `try` of `_handle_packet`, answers it with
  BAD_REQUEST, as the `except` clause does.

The GAME_STATE header is `type, lobbyId:uint16, status, turn, 255, black,
white, 0`: the type byte and the 8 bytes `struct.pack("!HBBBBBB", …)` writes
at line 597, the last of them a zero after the counts.
JOIN_LOBBY has a type byte, but `_handle_packet` does not dispatch it, so
it is answered UNKNOWN_MESSAGE_TYPE.

## Model

| member | source | states |
|---|---|---|
| Rules.InBounds | server/reversi_server.py:127-128 | `is_in_bounds`: the cell is on the 8×8 board, 0 ≤ x < 8 and 0 ≤ y < 8 |
| Rules.RunPath | server/reversi_server.py:156-162 | The `path` the `while` loop collects from a start cell along a direction: the cells in bounds holding the opponent's colour, up to the first other cell |
| Rules.RunEnd | server/reversi_server.py:141-144 | The cell that scan stops at: the first cell along the direction that is off the board or not the opponent's |
| Rules.Brackets | server/reversi_server.py:139-147 | A direction brackets a move when its run is non-empty and stops on the board on the player's own piece |
| Rules.Bracketed | server/reversi_server.py:163-164 | What one direction adds to `flips`: its run when it brackets the move, nothing otherwise |
| Rules.Flips | server/reversi_server.py:154-164 | `flips`: the bracketed runs of the eight directions, concatenated in the order of `DIRECTIONS` |
| Rules.LegalSet | server/reversi_server.py:131-147 | The `moves` set: the empty cells that some direction brackets |
| Rules.LegalMoves | server/reversi_server.py:131-148 | `find_legal_moves`: that set sorted as Python sorts `(x, y)` tuples |
| Rules.Place | server/reversi_server.py:165-169 | The board after a move: the placed cell and every flip in the mover's colour, every other cell as before |
| Rules.Count | server/reversi_server.py:173-181 | The number of cells of one colour, as `count_pieces` counts Black and White |
| Rules.WinnerOf | server/reversi_server.py:568-574 | The winner of a finished game: 0 when Black has more pieces, 1 when White has more, -1 on a tie |
| Rules.GameOver | server/reversi_server.py:255-269 | `check_game_over`: neither the player on turn nor the other has a legal move |
| Rules.Bonus | server/reversi_server.py:245-248 | The bonus of a move: 100 on a corner, 10 on another edge cell, 0 elsewhere |
| Rules.CpuScore | server/reversi_server.py:240-248 | The score `cpu_select_move` gives a move: the `1 + len(flips)` that `apply_player_move` returns, plus the bonus |
| Rules.RunStep | server/reversi_server.py:159-162 | One step of the scan over an opponent piece: the scanned path is that cell followed by the path from the next cell along the direction, and the scan stops at the same cell |
| Rules.RunPathCells | server/reversi_server.py:159-162 | Every cell the scan collects into `path` holds the opponent's colour |
| Rules.BracketsWhenScanStops | server/reversi_server.py:139-147 | When the `saw_opponent` scan of `find_legal_moves` stops, the direction brackets the empty cell exactly when an opponent piece was seen and the stopping cell is in bounds and holds the player's piece |
| Rules.FlipsUpToAreOpponents | server/reversi_server.py:156-164 | Every cell collected into `flips` by the first k directions holds an opponent piece |
| Rules.FlipsUpToEmpty | server/reversi_server.py:156-166 | `flips` is empty after k directions exactly when none of those directions brackets the cell |
| Rules.FlipsMeaning | server/reversi_server.py:151-166 | A move has flips exactly when some direction brackets it, and every flipped cell holds the opponent's colour |
| Rules.SortedFrom | server/reversi_server.py:148 | `sorted(moves)`: the result is strictly increasing in (x, y) tuple order and holds exactly the in-bounds members of the set |
| Rules.InitialGridCells | server/reversi_server.py:118-124 | The starting board is 8×8 with Black on (3,3) and (4,4), White on (4,3) and (3,4), and every other cell empty |
| RulesProofs.RunLength | server/reversi_server.py:159-162 | The scan runs exactly k cells when the first k cells along the ray hold the opponent and the (k+1)-th does not |
| RulesProofs.BracketsGivesSandwich | server/reversi_server.py:141-146 | A bracketing direction has its `|path|` cells after the move all the opponent's and the next cell the player's |
| RulesProofs.SandwichGivesBrackets | server/reversi_server.py:141-146 | Conversely, any k ≥ 1 opponent cells along a direction, closed by a player's piece, make that direction bracket the move |
| RulesProofs.LegalIffSandwich | server/reversi_server.py:131-148 | A move is legal exactly when the cell is empty and some direction has k ≥ 1 opponent pieces closed by one of the player's; this is an independent ray-arithmetic definition that does not use the scan |
| RulesProofs.LegalMovesSpec | server/reversi_server.py:131-148 | The list of `find_legal_moves` holds exactly the sandwich-legal cells and is strictly sorted as Python sorts tuples |
| RulesProofs.InLegalMoves | server/reversi_server.py:131-148 | A cell is in the legal-move list exactly when the move there is legal |
| RulesProofs.RunDirection | server/reversi_server.py:156-162 | Every cell of the path scanned from a move along a direction lies in that direction from the move |
| RulesProofs.RunNoDup | server/reversi_server.py:157-162 | A scanned path never repeats a cell |
| RulesProofs.NewFlipsDisjoint | server/reversi_server.py:156-164 | The run a direction adds to `flips` shares no cell with the runs of the earlier directions |
| RulesProofs.FlipsUpToDistinct | server/reversi_server.py:156-164 | `flips` never lists a cell twice, so `1 + len(flips)` counts distinct changed cells |
| RulesProofs.PlaceChanges | server/reversi_server.py:165-170 | A legal move changes exactly the placed cell and the flipped cells, every flipped cell was the opponent's, and there is at least one |
| RulesProofs.PlaceMine | server/reversi_server.py:167-169 | After a legal move the mover owns their old cells plus the placed cell plus the flips |
| RulesProofs.PlaceTheirs | server/reversi_server.py:167-169 | After a legal move the opponent owns their old cells minus the flips |
| RulesProofs.FlipsOwnership | server/reversi_server.py:156-169 | The flips are opponent cells, disjoint from the mover's cells, and the placed cell is neither |
| RulesProofs.PlaceCounts | server/reversi_server.py:151-170 | A legal move raises the mover's piece count by 1 + the number of flips and lowers the opponent's by the number of flips |
| BoardProofs.CountsPartition | server/reversi_server.py:173-181 | Black and White counts never exceed 64 together; on a board of only Black, White and Empty cells the three counts sum to 64 |
| BoardProofs.PlaceKeepsCellsOk | server/reversi_server.py:167-169 | Placing a piece keeps every cell Black, White or Empty |
| BoardProofs.InitialCells | server/reversi_server.py:121-123 | The cells of each colour on the starting board are exactly its two starting cells |
| BoardProofs.InitialCounts | server/reversi_server.py:118-124 | The starting board has 2 Black, 2 White and 60 empty cells |
| BoardProofs.SortedEqual | server/reversi_server.py:148 | Two strictly sorted lists with the same members are equal, so `sorted(moves)` is determined by the set |
| BoardProofs.InitialSandwich | server/reversi_server.py:118-148 | On the starting board a Black sandwich can only be at (2,4), (3,5), (4,2) or (5,3) |
| BoardProofs.InitialOpenings | server/reversi_server.py:118-148 | Each of those four cells is a legal Black opening |
| BoardProofs.InitialSandwichLegal | server/reversi_server.py:118-148 | A cell is a legal Black opening exactly when it is one of those four |
| BoardProofs.InitialBlackMoves | server/reversi_server.py:118-148 | `find_legal_moves` on the starting board for Black is exactly `[(2,4), (3,5), (4,2), (5,3)]` |
| BoardProofs.InitialMovesOf | server/reversi_server.py:118-148 | The same list for any grid equal to the starting board |
| BoardProofs.NoMovesMeaning | server/reversi_server.py:131-148 | The move list is empty exactly when no cell is a legal move for the player |
| BoardProofs.GameOverMeaning | server/reversi_server.py:255-269 | `check_game_over` holds exactly when neither player has a legal move, whichever of the two is asked about |
| Engine.CreateInitialBoard | server/reversi_server.py:118-124 | A fresh 8×8 board equal to the starting position |
| Engine.CloneBoard | server/reversi_server.py:184-185 | A fresh board with the same cells as the original |
| Engine.CellHasBracket | server/reversi_server.py:138-147 | The direction loop of `find_legal_moves` for one cell returns true exactly when some direction brackets the cell |
| Engine.FindLegalMoves | server/reversi_server.py:131-148 | The nested loops return the legal-move list of the board: every legal cell, sorted, and nothing else (see `RulesProofs.LegalMovesSpec`) |
| Engine.ScanRun | server/reversi_server.py:158-162 | The while loop collects exactly the run of opponent pieces from the start cell and stops at the first other cell |
| Engine.BracketedRun | server/reversi_server.py:157-164 | One direction contributes its run when the run is non-empty and ends on the player's piece, and nothing otherwise |
| Engine.CollectFlips | server/reversi_server.py:155-164 | The direction loop builds the flips of the move, direction by direction |
| Engine.PlaceAndFlip | server/reversi_server.py:167-169 | After the writes, the placed cell and the listed cells hold the player's colour and every other cell is as before |
| Engine.ApplyPlayerMove | server/reversi_server.py:151-170 | Succeeds exactly when the move is legal. It then returns `1 + len(flips)` and leaves the board as the placed board; otherwise it returns `(False, 0)` and leaves the board unchanged |
| Engine.CountPieces | server/reversi_server.py:173-181 | Returns the Black and White counts of the board |
| Engine.CheckGameOver | server/reversi_server.py:255-269 | True exactly when the game is over, i.e. neither player can move (see `BoardProofs.GameOverMeaning`) |
| Engine.ScoreMove | server/reversi_server.py:240-248 | Trying a legal move on a clone always succeeds, and the score is 1 + its flips, plus 100 on a corner or else 10 on an edge |
| Engine.CpuSelectMove | server/reversi_server.py:229-252 | None exactly when there is no legal move. Otherwise a legal move whose score no legal move beats, and the first such one in sorted order, since every earlier move scores strictly less |
| Engine.FirstBest | server/reversi_server.py:236-252 | The `score > best_score` update keeps the first move of highest score |
| Frames.ErrorFrame | server/reversi_server.py:719-720 | ERROR: the type byte and the code, two bytes |
| Frames.WelcomeFrame | server/reversi_server.py:438-443 | WELCOME: the type byte, the player id as a big-endian uint32, the name length and the name |
| Frames.ChatMessageFrame | server/reversi_server.py:512-520 | CHAT_MESSAGE: the type byte, the lobby id as uint16, the name length, the name, the message length as uint16, the message and the time in milliseconds as uint64 |
| Frames.Flatten | server/reversi_server.py:609-612 | `flat`: the 64 cells row by row, each as one byte |
| Frames.FromBEOfBE | server/reversi_server.py:440 | Unpacking a big-endian field gives back the packed number |
| Frames.BEOfFromBE | server/reversi_server.py:494 | Packing what `struct.unpack_from("!H", …)` read gives back the bytes, and the value fits the width |
| Frames.FromBEBound | server/reversi_server.py:494 | A w-byte big-endian field is below 256^w |
| Frames.ErrorRoundTrip | server/reversi_server.py:719-720 | The ERROR frame decodes to its code, and any frame that decodes to a code is that ERROR frame |
| Frames.WelcomeRoundTrip | server/reversi_server.py:438-443 | WELCOME (type, player id as uint32, name length, name) decodes to the id and name, and any frame that decodes is the WELCOME frame of what it decodes to |
| Frames.ChatMessageRoundTrip | server/reversi_server.py:512-520 | CHAT_MESSAGE (type, lobby id uint16, name, message length uint16, message, time uint64) decodes to its lobby, name, message and time |
| Frames.ChatMessageDecodeExact | server/reversi_server.py:512-520 | Any frame that decodes as CHAT_MESSAGE is the frame built from what it decodes to |
| Frames.GameStateFrame | server/reversi_server.py:594-614 | GAME_STATE is 73 bytes: type, lobby id, status, turn, 255, Black count, White count, 0, then the 64 cells |
| Frames.GameStateRoundTrip | server/reversi_server.py:594-614 | GAME_STATE decodes to its state, and any frame that decodes is the GAME_STATE frame of its decoded state, which is well formed |
| Frames.FlattenRowMajor | server/reversi_server.py:609-612 | Byte 8y + x of the flattened board is the cell at row y, column x |
| Frames.ParseHello | server/reversi_server.py:430-434 | Fails exactly when there is no length byte. A zero length gives "Player"; otherwise up to that many bytes after the length byte, fewer when the frame is short, as a Python slice clamps |
| Frames.HelloRoundTrip | server/reversi_server.py:430-434 | A HELLO frame carrying a name, whatever follows it, parses to that name, or to "Player" for an empty name |
| Frames.ParseChat | server/reversi_server.py:491-501 | BAD_REQUEST exactly when the frame is under 3 bytes. MESSAGE_TOO_LONG when the declared length exceeds 60000 or the frame is shorter than it declares; otherwise the message is the declared bytes after the header |
| Frames.ChatRoundTrip | server/reversi_server.py:494-501 | A CHAT frame parses back to its message when it is at most 60000 bytes, and is refused as MESSAGE_TOO_LONG otherwise |
| Frames.ChatTruncated | server/reversi_server.py:498-499 | A CHAT frame cut short of its declared length is refused as MESSAGE_TOO_LONG |
| Lobbies.IndexOf | server/reversi_server.py:539-543 | `list.index`: absent exactly when the value is not in the list; otherwise the first position holding it |
| Lobbies.RemoveAt | server/reversi_server.py:634-635 | `list.pop(i)`: one shorter, with the elements before i kept and those after it shifted down |
| Lobbies.RemoveAtMultiset | server/reversi_server.py:634-635 | `pop(i)` removes exactly one occurrence of the i-th element and keeps all others |
| Lobbies.KeepLast | server/reversi_server.py:326-332 | A `deque(maxlen=n)` after an append: the sequence when it holds at most n entries, otherwise its newest n |
| Lobbies.Sends | server/reversi_server.py:616-618 | The datagrams of the loop over `player_addresses`: the payload to each seat that has an address, in seat order |
| Lobbies.AfterMove | server/reversi_server.py:558-579 | The turn switching after a move: the turn goes to the opponent when the opponent can move, stays with the mover when only the mover can, and the game is over when neither can |
| Lobbies.PlaceCheck | server/reversi_server.py:535-551 | The checks of `_handle_place`, in order: GAME_NOT_ACTIVE, SPECTATOR_MOVE_NOT_ALLOWED, NOT_YOUR_TURN, a raise on a frame under 3 bytes, ILLEGAL_MOVE, and otherwise the move at (data[1], data[2]) is accepted |
| Lobbies.Lobby.Hash | server/reversi_server.py:335-340 | `state_hash`: the status, the turn and the cells, what `_send_state` compares with the last state sent |
| Lobbies.KeepLastSpec | server/reversi_server.py:326 | Appending to a `deque(maxlen=n)` keeps the newest n entries in order, ending with the new one, and drops nothing while there is room |
| Lobbies.SendsSpec | server/reversi_server.py:616-618 | The loop over `player_addresses` sends the payload only to seats' addresses, and to every seat that has one |
| Lobbies.AfterMoveSpec | server/reversi_server.py:558-579 | After a move the game is finished exactly when neither colour can move. Otherwise the player given the turn can move, and the turn goes to the opponent whenever the opponent can move |
| Lobbies.Player.constructor | server/reversi_server.py:278-283 | A new player is named "Guest", is in no lobby and has the given address and id |
| Lobbies.Lobby.constructor | server/reversi_server.py:315-327 | A new lobby is waiting, not started, with no seats, turn 0, no winner, empty chat, no state sent, and a fresh starting board |
| Lobbies.Lobby.AddChat | server/reversi_server.py:329-333 | Adds the entry exactly when the message is at most 60000 bytes; the history then keeps the newest 50 entries |
| Lobbies.Lobby.PlayMove | server/reversi_server.py:552-579 | A legal move leaves the board as the placed board. The turn, status and winner follow `AfterMove`, and the winner is the majority colour when the game ends |
| Lobbies.Lobby.AdvanceTurn | server/reversi_server.py:558-579 | The turn switching after a move: turn, status and winner as `AfterMove` gives them, and the board unchanged |
| Lobbies.Lobby.Finish | server/reversi_server.py:566-574 | Status FINISHED and winner 0, 1 or -1 by comparing the piece counts |
| Lobbies.Lobby.RemoveSeat | server/reversi_server.py:632-635 | The player's first seat and its address are removed together; a player with no seat leaves both lists unchanged |
| Lobbies.Lobby.CheckPlace | server/reversi_server.py:535-550 | The checks of `_handle_place` on the lobby: the same outcome as `PlaceCheck` |
| Lobbies.PlaceCheckSpec | server/reversi_server.py:535-551 | Each outcome happens exactly under its condition, checked in source order. GAME_NOT_ACTIVE when not playing; else SPECTATOR_MOVE_NOT_ALLOWED without a seat; else NOT_YOUR_TURN off turn; else a raise on a frame under 3 bytes; else ILLEGAL_MOVE; else the move at (data[1], data[2]) is accepted |
| Server.Truncate | server/reversi_server.py:509-510 | Python's `s[:n]`: the first min(n, len s) elements |
| Server.FlattenBoard | server/reversi_server.py:609-612 | The cell loop yields the row-major flattening of the board |
| Server.StartSends | server/reversi_server.py:616-618 | A lobby seating one player and a bot sends only to the player |
| Server.InitialStateFrame | server/reversi_server.py:592-614 | The first GAME_STATE of a game reports two pieces each and the starting cells |
| Server.ReversiServer.constructor | server/reversi_server.py:352-354 | No players, no lobbies, nothing sent |
| Server.ReversiServer.SendError | server/reversi_server.py:719-720 | Exactly one ERROR datagram with the code, to the address |
| Server.ReversiServer.SendToAll | server/reversi_server.py:616-618 | Appends the payload once per seat with an address, in seat order |
| Server.ReversiServer.GetOrCreatePlayer | server/reversi_server.py:391-402 | Returns the known player at the address, tables unchanged. Otherwise a fresh "Guest" with the new id, filed under both the address and the id |
| Server.ReversiServer.HandleHello | server/reversi_server.py:430-445 | As `Helloed`: raises exactly on a frame without a length byte, keeping the name and sending nothing. Otherwise sets the parsed name and sends WELCOME with the player's id and that name to the player. Either way the lobby table, every lobby and every board are untouched |
| Server.ReversiServer.SendState | server/reversi_server.py:586-618 | Sends nothing when status, turn and board are unchanged since the last send. Otherwise records them and sends GAME_STATE to every seat with an address |
| Server.ReversiServer.StartLobby | server/reversi_server.py:468-477 | Adds the AI or CPU seat to a one-player bot lobby. With two seats it starts the game at the given first turn and sends the state; otherwise the lobby stays as it was |
| Server.ReversiServer.MaybeStart | server/reversi_server.py:462-477 | Does nothing for a missing or started lobby; otherwise as `StartLobby` |
| Server.ReversiServer.OpenLobby | server/reversi_server.py:454-456 | A fresh waiting lobby with the mode and the creator in the first seat |
| Server.ReversiServer.AddLobby | server/reversi_server.py:457 | Files the lobby under its id and keeps the server's invariant |
| Server.ReversiServer.JoinNewLobby | server/reversi_server.py:453-458 | The new lobby is filed under the new id and the player's lobby is that id |
| Server.ReversiServer.CreateLobby | server/reversi_server.py:453-460 | For a bot mode: two seats, playing at the first turn, the state sent to the creator alone and its hash recorded. For any other mode: one seat, waiting, no hash recorded, nothing sent |
| Server.ReversiServer.HandleCreateLobby | server/reversi_server.py:450-460 | As `CreatedLobby`: raises exactly on a frame without a mode byte, changing nothing. Otherwise a fresh lobby is filed under the new id and becomes the player's, as `CreateLobby` says, and against a bot the player gets the 2–2 starting GAME_STATE, whose hash the lobby records (a waiting lobby records none). Either way every lobby already filed keeps its fields and board |
| Server.ReversiServer.BroadcastChat | server/reversi_server.py:508-524 | CHAT_MESSAGE with the lobby id, the name cut to 50 bytes, the message cut to 60000 bytes and the time, to every seat with an address |
| Server.ReversiServer.ChatIn | server/reversi_server.py:491-506 | A frame `ParseChat` refuses gets its error to the sender, history unchanged. Otherwise the message joins the 50-entry history under the sender's name and goes to every seat |
| Server.ReversiServer.HandleChat | server/reversi_server.py:482-506 | As `Chatted`: NOT_IN_LOBBY without a lobby id (or with 0); LOBBY_NOT_FOUND when the lobby is gone; otherwise as `ChatIn`. It never raises and never changes the lobby table or the player's lobby. Within the lobby only the chat history changes, and every other lobby keeps its fields and board |
| Server.ReversiServer.Resolve | server/reversi_server.py:535-581 | Given the outcome of the checks on the lobby as it was: a refused move leaves the game as it was and sends the error to the sender; a frame too short raises and sends nothing; an accepted move is played, the turn passed and the state sent |
| Server.ReversiServer.PlayAccepted | server/reversi_server.py:552-581 | A legal move by the player on turn updates board, turn, status and winner as `PlayMove`, then the state is sent as `SendState`, and the other lobbies are untouched |
| Server.ReversiServer.PlaceIn | server/reversi_server.py:535-581 | The lobby changes exactly as the outcome of the checks on the lobby before the move dictates |
| Server.ReversiServer.HandlePlace | server/reversi_server.py:529-581 | As `Placed`: NOT_IN_LOBBY when the player's lobby does not exist; otherwise as `PlaceIn`, where only a frame under 3 bytes that passes the earlier checks raises. Every other lobby keeps its fields and board |
| Server.ReversiServer.HandleLeave | server/reversi_server.py:623-639 | As `Left`: nothing without a lobby id. A missing lobby is just forgotten. Otherwise the player's seat and its address are removed, the player forgets the lobby, and a lobby left with no seats is deleted; nothing is sent. Only the seats of the lobby left change, and every other lobby keeps its fields and board |
| Server.ReversiServer.Raises | server/reversi_server.py:423-425 | The frames whose handler raises: HELLO or CREATE_LOBBY under 2 bytes, and a PLACE under 3 bytes from a seated player on turn in a lobby that exists and is playing |
| Server.ReversiServer.Answered | server/reversi_server.py:410-425 | The `if`/`elif` chain: HELLO as `Helloed`, CREATE_LOBBY as `CreatedLobby`, PLACE as `Placed`, CHAT as `Chatted`, LEAVE as `Left` (the last two never raise), any other type UNKNOWN_MESSAGE_TYPE to the sender. Every type but HELLO keeps the player's name; HELLO and an unknown type keep the player's lobby and the lobby table, and leave every lobby and its board as they were; each other branch leaves every lobby but the one it works on as it was (`LobbiesKept`). What a raise sends is a parameter |
| Server.ReversiServer.TryHandler | server/reversi_server.py:410-425 | HELLO as `Helloed` and CREATE_LOBBY as `CreatedLobby`, where the answer to a raise is one BAD_REQUEST to the sender and nothing else; HELLO keeps the player's lobby, CREATE_LOBBY the player's name |
| Server.ReversiServer.TryPlace | server/reversi_server.py:415-425 | PLACE as `Placed`, where the answer to a raise is one BAD_REQUEST to the sender and nothing else |
| Server.ReversiServer.Respond | server/reversi_server.py:410-425 | The `try`: the frame is answered as `Answered` says for the type byte, and exactly when the handler raises (exactly when `Raises` holds of the state before) the only datagram sent is one BAD_REQUEST to the sender |
| Server.ReversiServer.HandlePacket | server/reversi_server.py:404-425 | An empty datagram raises nothing and leaves the server's fields, every player and every lobby with its board as they were. Otherwise the sender is afterwards the player filed under the address: the known one, or a fresh one with the new id, named "Guest" and in no lobby. The address table gains exactly that entry; the id table is unchanged for a known sender and gains the new id for a new one; every other player is unchanged. The frame is answered as `Answered` says, with a single BAD_REQUEST to the sender as the whole answer to a raise, and it raises exactly when `Raises` holds |
| Server.ReversiServer.RespondToNew | server/reversi_server.py:391-425 | A sender not yet known is filed as a fresh "Guest" with the new id under the address and the id, both tables otherwise unchanged, and the frame is answered as `Respond` says for a player in no lobby |

## Left out

- The socket, the receive loop, the thread pool, the locks, `start` and the tick loop (lines 347-386, 644-647). The handlers are modelled as if they run one at a time, so concurrency is not modelled. `sendto` becomes an append to `outbox`.
- `_tick` (lines 649-714) is not part of this model. This covers:
  - the CPU/AI turn with its random think delay and `_cpu_action_due`;
  - idle-player eviction.

  The CPU's choice itself is modelled (`Engine.CpuSelectMove`), and so is the turn switching it shares with `_handle_place` (`Lobbies.Lobby.AdvanceTurn`). `_tick` flips the turn even when the bot had no move (line 679); that path is not modelled.
- `ai_state_key` and `ai_select_move` (lines 188-226), and the pickled Q-table, are not part of this model. They depend on an external table and random choice.
- `last_active` and `refresh` (lines 282, 285-286): only idle eviction reads `last_active`, and it is left out. The clock `current_time` (lines 38-39) is read by `_broadcast_chat` (line 519), which gets it as the `nowMs` parameter, and by `_tick` (line 650), which is left out.
- `ChatMessage.timestamp` (line 295) is not stored in the history. The broadcast time is a parameter, `nowMs`.
- `pass_streak` and `_cpu_action_due` are never read by the modelled handlers.
- `log_message` and every `print`.
- `generate_player_id`, `generate_lobby_id` and `random.randint(0, 1)` (lines 42-50, 475) become parameters:
  - `newPlayerId` with 1 ≤ id < 2^31 − 1;
  - `newLobbyId` with 1 ≤ id < 65535, and not already used when the frame is CREATE_LOBBY, which the generator's retry loop guarantees while a free id exists. Once all 65534 ids are taken, `generate_lobby_id` (lines 46-50) loops forever; the model requires a fresh id and so does not cover that hang;
  - `firstTurn`, which is 0 or 1.
- UTF-8 decoding with `"ignore"` and re-encoding (lines 434, 441-442, 501, 509-510) are taken as the identity on byte strings. Names and messages are modelled as bytes, so a frame with invalid UTF-8 is not modelled.
- The second MESSAGE_TOO_LONG check (line 503-504): `add_chat`'s refusal is modelled in `Lobbies.Lobby.AddChat`, but `_handle_chat` has already refused such a message (line 498), so line 504 is unreachable. `ChatIn` does not model it.
- The APPLY_FAILED answer (lines 553-554) is unreachable. A move that `find_legal_moves` accepts always applies (`Engine.ApplyPlayerMove`), so the model has no branch for it.
- `_handle_leave` deletes a lobby only when no seats are left. A bot seat keeps a lobby alive after the human leaves; this is modelled as written.
- LIST_LOBBIES, JOIN_LOBBY, PING and the other message types the server does not dispatch are answered UNKNOWN_MESSAGE_TYPE. This is modelled as written.
- The `_initial_board` cache (lines 115-124) is a module-level memo. Each call returns a fresh copy, which is what the model does.
