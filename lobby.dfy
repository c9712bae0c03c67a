/** The per-game state the server keeps: players, lobbies with their board,
    seats, turn, status and chat history, and the datagrams it sends. */
module Lobbies {
  import opened Wrappers
  import opened Rules
  import opened RulesProofs
  import opened BoardProofs
  import opened Engine
  import opened Frames

  /** A UDP peer: host and port. */
  datatype Address = Address(host: string, port: int)

  /** One datagram handed to the socket. */
  datatype Datagram = Datagram(to: Address, payload: seq<Byte>)

  /** A seat of a lobby: a human player by id, or a bot. */
  datatype Seat = Human(playerId: int) | Cpu | Ai

  datatype ChatEntry = ChatEntry(sender: seq<Byte>, message: seq<Byte>)

  /** What `state_hash` compares: status, turn and every cell. */
  datatype StateHash = StateHash(status: int, turn: int, cells: Grid)

  // Game status
  const WAITING := 0
  const PLAYING := 1
  const FINISHED := 2

  // Game mode
  const PLAYER_VS_PLAYER := 0
  const PLAYER_VS_CPU := 1
  const PLAYER_VS_AI := 2

  /** The name of a player that has not said HELLO: "Guest". */
  const GUEST_NAME: seq<Byte> := [71, 117, 101, 115, 116]

  /** Python's `list.index`: the first position of x in s, if any. */
  function IndexOf<T(==)>(s: seq<T>, x: T): (r: Option<nat>)
    ensures r.None? <==> x !in s
    ensures r.Some? ==> r.value < |s| && s[r.value] == x && x !in s[..r.value]
  {
    if s == [] then None
    else if s[0] == x then Some(0)
    else match IndexOf(s[1..], x)
      case None => None
      case Some(i) => assert s[1..][..i] == s[1..i + 1]; Some(i + 1)
  }

  /** Python's `list.pop(i)` as a value: s without its entry at i, the
      others in order. */
  function RemoveAt<T>(s: seq<T>, i: nat): (r: seq<T>)
    requires i < |s|
    ensures |r| == |s| - 1
    ensures forall j :: 0 <= j < |r| ==> r[j] == if j < i then s[j] else s[j + 1]
  {
    s[..i] + s[i + 1..]
  }

  /** Popping an entry takes exactly one copy of it out of the list. */
  lemma RemoveAtMultiset<T>(s: seq<T>, i: nat)
    requires i < |s|
    ensures multiset(RemoveAt(s, i)) == multiset(s) - multiset{s[i]}
  {
    assert s == s[..i] + [s[i]] + s[i + 1..];
  }

  /** What a deque with `maxlen` n holds after the appends that made s:
      the newest n entries. */
  function KeepLast<T>(s: seq<T>, n: nat): seq<T> {
    if |s| <= n then s else s[|s| - n..]
  }

  /** A bounded history keeps at most n entries, drops the oldest first and
      keeps the newest. */
  lemma KeepLastSpec<T>(s: seq<T>, x: T, n: nat)
    requires n > 0
    ensures |KeepLast(s + [x], n)| == if |s| + 1 <= n then |s| + 1 else n
    ensures KeepLast(s + [x], n) == (s + [x])[|s| + 1 - |KeepLast(s + [x], n)|..]
    ensures KeepLast(s + [x], n)[|KeepLast(s + [x], n)| - 1] == x
    ensures |s| < n ==> KeepLast(s + [x], n) == s + [x]
  {
  }

  /** The datagrams a broadcast sends: one to each seat that has an
      address, in seat order; bot seats have none. */
  function Sends(addresses: seq<Option<Address>>, payload: seq<Byte>): seq<Datagram> {
    if addresses == [] then []
    else
      var last := addresses[|addresses| - 1];
      Sends(addresses[..|addresses| - 1], payload) + if last.Some? then [Datagram(last.value, payload)] else []
  }

  /** A broadcast carries the payload to every address in the seats and
      to nobody else. */
  lemma {:induction false} SendsSpec(addresses: seq<Option<Address>>, payload: seq<Byte>)
    ensures forall d :: d in Sends(addresses, payload) ==> d.payload == payload && Some(d.to) in addresses
    ensures forall a :: Some(a) in addresses ==> Datagram(a, payload) in Sends(addresses, payload)
  {
    if addresses != [] {
      var init := addresses[..|addresses| - 1];
      SendsSpec(init, payload);
      assert addresses == init + [addresses[|addresses| - 1]];
    }
  }

  /** What follows a move by `mover`: the turn passes to the opponent if
      they can move; otherwise the game ends when the mover cannot move
      either, and the mover plays again when they can. The result is the
      next turn and whether the game is finished. */
  function AfterMove(g: Grid, mover: int): (int, bool)
    requires IsGrid(g)
  {
    var next := 1 - mover;
    if LegalMoves(g, next) != [] then (next, false)
    else if GameOver(g, next) then (next, true)
    else (1 - next, false)
  }

  /** After a move the game finishes exactly when neither player can move;
      otherwise the player given the turn has a legal move, and it is the
      opponent whenever the opponent can move. */
  lemma AfterMoveSpec(g: Grid, mover: int)
    requires IsGrid(g) && IsPlayer(mover)
    ensures IsPlayer(AfterMove(g, mover).0)
    ensures AfterMove(g, mover).1 <==> Stuck(g, Black) && Stuck(g, White)
    ensures !AfterMove(g, mover).1 ==> LegalMoves(g, AfterMove(g, mover).0) != []
    ensures LegalMoves(g, 1 - mover) != [] ==> AfterMove(g, mover).0 == 1 - mover
  {
    GameOverMeaning(g, 1 - mover);
    NoMovesMeaning(g, 1 - mover);
    NoMovesMeaning(g, mover);
    assert 1 - (1 - mover) == mover;
  }

  /** A client known by its address (`Player`). The last-activity time is
      not modelled. */
  class Player {
    const address: Address
    const playerId: int
    var name: seq<Byte>
    var lobbyId: Option<int>

    constructor(address: Address, playerId: int)
      ensures this.address == address && this.playerId == playerId
      ensures name == GUEST_NAME && lobbyId == None
    {
      this.address := address;
      this.playerId := playerId;
      name := GUEST_NAME;
      lobbyId := None;
    }
  }

  /** A game room (`Lobby`): its seats and their addresses, the board, whose
      turn it is, the status, the winner once finished, the last fifty chat
      messages and the last state it broadcast. */
  class Lobby {
    const lobbyId: int
    const mode: Byte
    const board: array2<int>
    var started: bool
    var players: seq<Seat>
    var playerAddresses: seq<Option<Address>>
    var turnIndex: int
    var status: int
    var winner: Option<int>
    var chatHistory: seq<ChatEntry>
    var lastHash: Option<StateHash>

    ghost predicate Valid()
      reads this, board
    {
      IsBoard(board) && CellsOk(Snapshot(board)) && 1 <= lobbyId < 65535 &&
      |players| == |playerAddresses| && IsPlayer(turnIndex) &&
      WAITING <= status <= FINISHED && |chatHistory| <= MAX_CHAT_HISTORY
    }

    /** A new lobby: waiting, nobody seated, black to move on the starting board. */
    constructor(lobbyId: int, mode: Byte)
      requires 1 <= lobbyId < 65535
      ensures Valid() && fresh(board)
      ensures this.lobbyId == lobbyId && this.mode == mode && Snapshot(board) == InitialGrid
      ensures !started && players == [] && playerAddresses == [] && turnIndex == 0
      ensures status == WAITING && winner == None && chatHistory == [] && lastHash == None
    {
      this.lobbyId := lobbyId;
      this.mode := mode;
      var b := CreateInitialBoard();
      board := b;
      started := false;
      players := [];
      playerAddresses := [];
      turnIndex := 0;
      status := WAITING;
      winner := None;
      chatHistory := [];
      lastHash := None;
      new;
      InitialCounts();
    }

    /** `add_chat`: refuse a message over 60000 bytes; otherwise append it,
        the oldest entry falling out past fifty. */
    method AddChat(sender: seq<Byte>, message: seq<Byte>) returns (added: bool)
      requires Valid()
      modifies this`chatHistory
      ensures Valid()
      ensures added <==> |message| <= MAX_CHAT_MESSAGE_LENGTH
      ensures chatHistory ==
        if added then KeepLast(old(chatHistory) + [ChatEntry(sender, message)], MAX_CHAT_HISTORY)
        else old(chatHistory)
    {
      if |message| > MAX_CHAT_MESSAGE_LENGTH {
        return false;
      }
      chatHistory := KeepLast(chatHistory + [ChatEntry(sender, message)], MAX_CHAT_HISTORY);
      return true;
    }

    /** `state_hash`. */
    ghost function Hash(): StateHash
      reads this, board
      requires IsBoard(board)
    {
      StateHash(status, turnIndex, Snapshot(board))
    }

    /** The GAME_STATE frame of the lobby as it stands. */
    ghost function StateFrame(): seq<Byte>
      reads this, board
      requires Valid()
    {
      var g := Snapshot(board);
      CountsPartition(g);
      GameStateFrame(GameState(lobbyId, status, turnIndex, Count(g, Black), Count(g, White), Flatten(g)))
    }

    /** The part of `_handle_place` after the checks: play the move, then
        hand the turn on. */
    method PlayMove(x: int, y: int)
      requires Valid() && (x, y) in LegalMoves(Snapshot(board), turnIndex)
      modifies this`turnIndex, this`status, this`winner, board
      ensures Valid()
      ensures Snapshot(board) == Place(old(Snapshot(board)), old(turnIndex), x, y)
      ensures turnIndex == AfterMove(Snapshot(board), old(turnIndex)).0
      ensures status == if AfterMove(Snapshot(board), old(turnIndex)).1 then FINISHED else old(status)
      ensures winner == if AfterMove(Snapshot(board), old(turnIndex)).1 then Some(WinnerOf(Snapshot(board))) else old(winner)
    {
      ghost var g := Snapshot(board);
      InLegalMoves(g, turnIndex, x, y);
      var ok, _ := ApplyPlayerMove(board, turnIndex, x, y);
      PlaceKeepsCellsOk(g, turnIndex, x, y);
      AdvanceTurn();
    }

    /** Turn switching after a move by the player to move: the opponent
        moves next if they can; otherwise the game is over when the mover
        cannot move either, with the winner by piece count (0, 1, or -1 for
        a tie), and the mover plays again when they can. */
    method AdvanceTurn()
      requires Valid()
      modifies this`turnIndex, this`status, this`winner
      ensures Valid()
      ensures turnIndex == AfterMove(Snapshot(board), old(turnIndex)).0
      ensures status == if AfterMove(Snapshot(board), old(turnIndex)).1 then FINISHED else old(status)
      ensures winner == if AfterMove(Snapshot(board), old(turnIndex)).1 then Some(WinnerOf(Snapshot(board))) else old(winner)
    {
      turnIndex := 1 - turnIndex;
      var nextMoves := FindLegalMoves(board, turnIndex);
      if nextMoves == [] {
        var over := CheckGameOver(board, turnIndex);
        if over {
          Finish();
        } else {
          turnIndex := 1 - turnIndex;
        }
      }
    }

    /** `players.pop(i)` and `player_addresses.pop(i)` at the first seat of
        the given player, when seated; a player who is not seated changes
        nothing. */
    method RemoveSeat(playerId: int)
      requires Valid()
      modifies this`players, this`playerAddresses
      ensures Valid() && SeatLeft(this, playerId)
    {
      var idx := IndexOf(players, Human(playerId));
      if idx.Some? {
        players := RemoveAt(players, idx.value);
        playerAddresses := RemoveAt(playerAddresses, idx.value);
      }
    }

    /** The end of a game: finished, with the winner by piece count. */
    method Finish()
      requires Valid()
      modifies this`status, this`winner
      ensures Valid() && status == FINISHED && winner == Some(WinnerOf(Snapshot(board)))
    {
      status := FINISHED;
      var p0, p1 := CountPieces(board);
      if p0 > p1 {
        winner := Some(0);
      } else if p1 > p0 {
        winner := Some(1);
      } else {
        winner := Some(-1);
      }
    }

    /** The checks `_handle_place` makes before playing a PLACE from the
        given seat: the game is on, the sender is seated, it is their turn,
        the frame holds a move, and the move is among the legal ones. */
    method CheckPlace(seat: Option<nat>, data: seq<Byte>) returns (outcome: PlaceOutcome)
      requires Valid()
      ensures outcome == PlaceCheck(status, seat, turnIndex, data, Snapshot(board))
    {
      if status != PLAYING {
        return Rejected(GAME_NOT_ACTIVE);
      }
      if seat.None? {
        return Rejected(SPECTATOR_MOVE_NOT_ALLOWED);
      }
      if turnIndex != seat.value {
        return Rejected(NOT_YOUR_TURN);
      }
      if |data| < 3 {
        return Malformed;
      }
      var x, y := data[1] as int, data[2] as int;
      var moves := FindLegalMoves(board, seat.value);
      if (x, y) !in moves {
        return Rejected(ILLEGAL_MOVE);
      }
      return Accepted(x, y);
    }
  }

  /** The seats of a lobby after a player leaves it: the player's first
      seat and its address are gone, the others kept in order. */
  twostate predicate SeatLeft(lb: Lobby, playerId: int)
    reads lb
  {
    match IndexOf(old(lb.players), Human(playerId))
    case None => lb.players == old(lb.players) && lb.playerAddresses == old(lb.playerAddresses)
    case Some(i) =>
      i < |old(lb.playerAddresses)| &&
      lb.players == RemoveAt(old(lb.players), i) && lb.playerAddresses == RemoveAt(old(lb.playerAddresses), i)
  }

  /** What `_handle_place` makes of a PLACE once the player's lobby is
      found: an error code, a frame too short to hold the move (the
      server's IndexError), or the move to play. */
  datatype PlaceOutcome = Rejected(code: Byte) | Malformed | Accepted(x: int, y: int)

  /** The checks of `_handle_place`, in the order it makes them, given the
      lobby's status, the player's seat, the turn, the frame and the board. */
  function PlaceCheck(status: int, seat: Option<nat>, turn: int, data: seq<Byte>, g: Grid): PlaceOutcome
    requires IsGrid(g)
  {
    if status != PLAYING then Rejected(GAME_NOT_ACTIVE)
    else if seat.None? then Rejected(SPECTATOR_MOVE_NOT_ALLOWED)
    else if seat.value != turn then Rejected(NOT_YOUR_TURN)
    else if |data| < 3 then Malformed
    else if (data[1] as int, data[2] as int) !in LegalMoves(g, turn) then Rejected(ILLEGAL_MOVE)
    else Accepted(data[1], data[2])
  }

  /** Each answer to a PLACE in terms of the lobby: a move is played exactly
      when the game is on, the sender holds the seat whose turn it is, and
      the move is legal; otherwise the first failed check picks the error. */
  lemma PlaceCheckSpec(status: int, seat: Option<nat>, turn: int, data: seq<Byte>, g: Grid)
    requires IsGrid(g)
    ensures PlaceCheck(status, seat, turn, data, g).Accepted? <==>
      status == PLAYING && seat == Some(turn) && |data| >= 3 && IsLegal(g, turn, data[1], data[2])
    ensures PlaceCheck(status, seat, turn, data, g).Accepted? ==>
      PlaceCheck(status, seat, turn, data, g) == Accepted(data[1], data[2])
    ensures PlaceCheck(status, seat, turn, data, g) == Rejected(GAME_NOT_ACTIVE) <==> status != PLAYING
    ensures PlaceCheck(status, seat, turn, data, g) == Rejected(SPECTATOR_MOVE_NOT_ALLOWED) <==>
      status == PLAYING && seat.None?
    ensures PlaceCheck(status, seat, turn, data, g) == Rejected(NOT_YOUR_TURN) <==>
      status == PLAYING && seat.Some? && seat.value != turn
    ensures PlaceCheck(status, seat, turn, data, g).Malformed? <==>
      status == PLAYING && seat == Some(turn) && |data| < 3
    ensures PlaceCheck(status, seat, turn, data, g) == Rejected(ILLEGAL_MOVE) <==>
      status == PLAYING && seat == Some(turn) && |data| >= 3 && !IsLegal(g, turn, data[1], data[2])
  {
    if |data| >= 3 {
      InLegalMoves(g, turn, data[1], data[2]);
    }
  }
}
