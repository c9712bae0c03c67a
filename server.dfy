/** The packet handlers of the Reversi UDP server (`ReversiUDPServer`).
    The socket is replaced by `outbox`, the list of datagrams sent so far;
    the random player id, lobby id and first turn and the clock are
    parameters of the handlers that use them. */
module Server {
  import opened Wrappers
  import opened Rules
  import opened BoardProofs
  import opened Engine
  import opened Frames
  import opened Lobbies

  /** The largest player id plus one: ids are drawn from [1, 2^31 - 1). */
  const PLAYER_ID_BOUND := 0x7FFF_FFFF

  /** Python's slice `s[:n]`. */
  function Truncate<T>(s: seq<T>, n: nat): (r: seq<T>)
    ensures |r| == (if |s| <= n then |s| else n) && r == s[..|r|]
  {
    if |s| <= n then s else s[..n]
  }

  /** The cell loop of `_send_state`: the board row by row as bytes. */
  method FlattenBoard(board: array2<int>) returns (flat: seq<Byte>)
    requires IsBoard(board) && CellsOk(Snapshot(board))
    ensures flat == Flatten(Snapshot(board))
  {
    ghost var g := Snapshot(board);
    FlattenRowMajor(g);
    flat := [];
    var y := 0;
    while y < 8
      invariant 0 <= y <= 8
      invariant flat == Flatten(g)[..8 * y]
    {
      var x := 0;
      while x < 8
        invariant 0 <= x <= 8
        invariant flat == Flatten(g)[..8 * y + x]
      {
        assert Flatten(g)[..8 * y + x + 1] == Flatten(g)[..8 * y + x] + [Flatten(g)[8 * y + x]];
        flat := flat + [board[y, x] as Byte];
        x := x + 1;
      }
      y := y + 1;
    }
  }

  /** A broadcast to a lobby of one player and a bot reaches the player alone. */
  lemma StartSends(addr: Address, payload: seq<Byte>)
    ensures Sends([Some(addr), None], payload) == [Datagram(addr, payload)]
  {
    var seats := [Some(addr), None];
    assert seats[..1] == [Some(addr)] && [Some(addr)][..0] == [];
    assert Sends(seats, payload) == Sends([Some(addr)], payload);
    assert Sends([Some(addr)], payload) == Sends([], payload) + [Datagram(addr, payload)];
  }

  /** The GAME_STATE of a game that has just started: two pieces each on
      the starting board. */
  lemma InitialStateFrame(lb: Lobby)
    requires lb.Valid() && Snapshot(lb.board) == InitialGrid && lb.status == PLAYING
    ensures lb.StateFrame() ==
      GameStateFrame(GameState(lb.lobbyId, PLAYING, lb.turnIndex, 2, 2, Flatten(InitialGrid)))
  {
    InitialCounts();
  }

  class ReversiServer {
    var playersByAddress: map<Address, Player>
    var playersById: map<int, Player>
    var lobbies: map<int, Lobby>
    var outbox: seq<Datagram>

    ghost function Boards(): set<array2<int>>
      reads this`lobbies
    {
      set l | l in lobbies.Values :: l.board
    }

    /** Every player is filed under its own address and has an id the id
        generator can produce; every lobby is filed under its own id, is
        well formed, and has a board of its own. */
    ghost predicate Valid()
      reads this`playersByAddress, this`lobbies, lobbies.Values, Boards()
    {
      (forall a :: a in playersByAddress ==>
        playersByAddress[a].address == a && 1 <= playersByAddress[a].playerId < PLAYER_ID_BOUND) &&
      (forall k :: k in lobbies ==> lobbies[k].lobbyId == k && lobbies[k].Valid()) &&
      (forall l :: l in lobbies.Values ==> l.Valid()) &&
      (forall l, m :: l in lobbies.Values && m in lobbies.Values && l != m ==> l.board != m.board)
    }

    /** The lobby a player's `lobby_id` names, if it exists. */
    ghost function LobbyOf(p: Player): set<Lobby>
      reads this`lobbies, p
    {
      if p.lobbyId.Some? && p.lobbyId.value in lobbies then {lobbies[p.lobbyId.value]} else {}
    }

    ghost function LobbyAt(k: int): set<Lobby>
      reads this`lobbies
    {
      if k in lobbies then {lobbies[k]} else {}
    }

    /** A server with no players, no lobbies, and nothing sent. */
    constructor()
      ensures Valid()
      ensures playersByAddress == map[] && playersById == map[] && lobbies == map[] && outbox == []
    {
      playersByAddress := map[];
      playersById := map[];
      lobbies := map[];
      outbox := [];
    }

    /** `_send_error`: one ERROR datagram to the address. */
    method SendError(addr: Address, code: Byte)
      modifies this`outbox
      ensures outbox == old(outbox) + [Datagram(addr, ErrorFrame(code))]
    {
      outbox := outbox + [Datagram(addr, [ERROR, code])];
    }

    /** The sending loop of `_send_state` and `_broadcast_chat`: the payload
        to every seat that has an address, in seat order. */
    method SendToAll(addresses: seq<Option<Address>>, payload: seq<Byte>)
      modifies this`outbox
      ensures outbox == old(outbox) + Sends(addresses, payload)
    {
      var i := 0;
      while i < |addresses|
        invariant 0 <= i <= |addresses|
        invariant outbox == old(outbox) + Sends(addresses[..i], payload)
      {
        assert addresses[..i + 1][..i] == addresses[..i];
        if addresses[i].Some? {
          outbox := outbox + [Datagram(addresses[i].value, payload)];
        }
        i := i + 1;
      }
      assert addresses[..i] == addresses;
    }

    /** `_get_or_create_player`: the player known at the address, or a new
        "Guest" filed under the address and under the new id. */
    method GetOrCreatePlayer(addr: Address, newPlayerId: int) returns (p: Player)
      requires Valid() && 1 <= newPlayerId < PLAYER_ID_BOUND
      modifies this`playersByAddress, this`playersById
      ensures Valid()
      ensures addr in playersByAddress && playersByAddress[addr] == p
      ensures addr in old(playersByAddress) ==>
        p == old(playersByAddress[addr]) && playersByAddress == old(playersByAddress) && playersById == old(playersById)
      ensures addr !in old(playersByAddress) ==>
        fresh(p) && p.address == addr && p.playerId == newPlayerId && p.name == GUEST_NAME && p.lobbyId == None &&
        playersByAddress == old(playersByAddress)[addr := p] && playersById == old(playersById)[newPlayerId := p]
    {
      if addr in playersByAddress {
        return playersByAddress[addr];
      }
      p := new Player(addr, newPlayerId);
      playersByAddress := playersByAddress[addr := p];
      playersById := playersById[newPlayerId := p];
    }

    /** Every lobby filed before, except the one filed under `touched`, is
        as it was, board included. */
    twostate predicate LobbiesKept(touched: Option<int>)
      reads *
    {
      forall l :: l in old(lobbies.Values) && (touched.None? || touched.value !in old(lobbies) || l != old(lobbies)[touched.value]) ==>
        unchanged(l) && unchanged(l.board)
    }

    /** What `_handle_hello` does: on a frame without a length byte it
        raises, the name stays `name0` and only `onRaise` (what the caller
        sends for the exception) is sent; otherwise the name becomes the one
        the frame carries ("Player" when its length byte is zero) and the
        player is answered WELCOME with its id and that name. No lobby
        changes. */
    twostate predicate Helloed(data: seq<Byte>, new player: Player, name0: seq<Byte>, raised: bool, onRaise: seq<Datagram>)
      reads *
    {
      lobbies == old(lobbies) && LobbiesKept(None) && (raised <==> |data| < 2) &&
      if raised then
        player.name == name0 && outbox == old(outbox) + onRaise
      else
        player.name == ParseHello(data).value && |player.name| < 256 && 0 <= player.playerId < Pow256(4) &&
        outbox == old(outbox) + [Datagram(player.address, WelcomeFrame(player.playerId, player.name))]
    }

    /** `_handle_hello`. */
    method HandleHello(data: seq<Byte>, player: Player) returns (raised: bool)
      requires 1 <= player.playerId < PLAYER_ID_BOUND
      modifies this`outbox, player`name
      ensures Helloed(data, player, old(player.name), raised, [])
    {
      if |data| < 2 {
        return true;
      }
      var nameLen := data[1] as int;
      var name := DEFAULT_NAME;
      if nameLen != 0 {
        name := data[2..if |data| < 2 + nameLen then |data| else 2 + nameLen];
      }
      player.name := name;
      assert Pow256(4) == 0x1_0000_0000;
      var payload := [WELCOME] + BE(player.playerId, 4) + [|name| as Byte] + name;
      outbox := outbox + [Datagram(player.address, payload)];
      return false;
    }

    /** `_send_state`: nothing when status, turn and board are as last sent;
        otherwise remember them and send GAME_STATE to every seat with an
        address. */
    method SendState(lb: Lobby)
      requires lb.Valid()
      modifies this`outbox, lb`lastHash
      ensures lb.Valid() && lb.lastHash == Some(lb.Hash())
      ensures outbox == old(outbox) +
        if old(lb.lastHash) == Some(lb.Hash()) then [] else Sends(lb.playerAddresses, lb.StateFrame())
    {
      var h := StateHash(lb.status, lb.turnIndex, Snapshot(lb.board));
      if lb.lastHash == Some(h) {
        return;
      }
      lb.lastHash := Some(h);
      var b, w := CountPieces(lb.board);
      CountsPartition(Snapshot(lb.board));
      var flat := FlattenBoard(lb.board);
      var payload := GameStateFrame(GameState(lb.lobbyId, lb.status, lb.turnIndex, b, w, flat));
      SendToAll(lb.playerAddresses, payload);
    }

    /** How `_maybe_start` leaves a lobby that had not started: a bot seat
        (AI in mode 2, CPU in mode 1) added when one player was seated, and
        with two seats the game on at the given first turn, its state
        sent to the seats; with fewer seats the lobby still waits. */
    twostate predicate StartedFrom(lb: Lobby, firstTurn: int)
      requires lb.Valid()
      reads this, lb, lb.board
    {
      var bot := lb.mode in {PLAYER_VS_CPU, PLAYER_VS_AI} && |old(lb.players)| == 1;
      lb.players == old(lb.players) + (if !bot then [] else if lb.mode == PLAYER_VS_AI then [Ai] else [Cpu]) &&
      lb.playerAddresses == old(lb.playerAddresses) + (if bot then [None] else []) &&
      lb.winner == old(lb.winner) && lb.chatHistory == old(lb.chatHistory) &&
      if |lb.players| == 2 then
        lb.started && lb.status == PLAYING && lb.turnIndex == firstTurn && lb.lastHash == Some(lb.Hash()) &&
        outbox == old(outbox) +
          if old(lb.lastHash) == Some(lb.Hash()) then [] else Sends(lb.playerAddresses, lb.StateFrame())
      else
        !lb.started && lb.status == old(lb.status) && lb.turnIndex == old(lb.turnIndex) &&
        lb.lastHash == old(lb.lastHash) && outbox == old(outbox)
    }

    /** `_maybe_start` once the lobby is found and has not started. */
    method StartLobby(lb: Lobby, firstTurn: int)
      requires lb.Valid() && !lb.started && IsPlayer(firstTurn)
      modifies this`outbox, lb`players, lb`playerAddresses, lb`started, lb`status, lb`turnIndex, lb`lastHash
      ensures lb.Valid() && StartedFrom(lb, firstTurn)
    {
      if lb.mode in {PLAYER_VS_CPU, PLAYER_VS_AI} && |lb.players| == 1 {
        lb.players := lb.players + [if lb.mode == PLAYER_VS_AI then Ai else Cpu];
        lb.playerAddresses := lb.playerAddresses + [None];
      }
      if |lb.players| == 2 {
        lb.started := true;
        lb.status := PLAYING;
        lb.turnIndex := firstTurn;
        SendState(lb);
      }
    }

    /** `_maybe_start`: nothing for a lobby that does not exist or has
        started; otherwise `StartedFrom`. */
    method MaybeStart(lobbyId: int, firstTurn: int)
      requires Valid() && IsPlayer(firstTurn)
      modifies this`outbox, LobbyAt(lobbyId)
      ensures Valid()
      ensures lobbyId !in lobbies || old(lobbies[lobbyId].started) ==>
        outbox == old(outbox) && unchanged(LobbyAt(lobbyId))
      ensures lobbyId in lobbies && !old(lobbies[lobbyId].started) ==> StartedFrom(lobbies[lobbyId], firstTurn)
    {
      if lobbyId !in lobbies {
        return;
      }
      var lb := lobbies[lobbyId];
      if lb.started {
        return;
      }
      StartLobby(lb, firstTurn);
    }

    /** The new lobby of `_handle_create_lobby`, with its creator seated. */
    static method OpenLobby(lobbyId: int, mode: Byte, player: Player) returns (lb: Lobby)
      requires 1 <= lobbyId < 65535
      ensures fresh(lb) && fresh(lb.board) && lb.Valid()
      ensures lb.lobbyId == lobbyId && lb.mode == mode && Snapshot(lb.board) == InitialGrid
      ensures lb.players == [Human(player.playerId)] && lb.playerAddresses == [Some(player.address)]
      ensures !lb.started && lb.turnIndex == 0 && lb.status == WAITING && lb.winner == None
      ensures lb.chatHistory == [] && lb.lastHash == None
    {
      lb := new Lobby(lobbyId, mode);
      lb.players := lb.players + [Human(player.playerId)];
      lb.playerAddresses := lb.playerAddresses + [Some(player.address)];
    }

    /** Files a new lobby under its id. */
    method AddLobby(lb: Lobby)
      requires Valid() && lb.Valid() && lb.lobbyId !in lobbies && lb.board !in Boards()
      modifies this`lobbies
      ensures Valid() && lobbies == old(lobbies)[lb.lobbyId := lb]
    {
      lobbies := lobbies[lb.lobbyId := lb];
    }

    /** What `_handle_create_lobby` does: on a frame without a mode byte it
        raises before anything changes, and only `onRaise` is sent;
        otherwise a fresh lobby is filed under the new id with the frame's
        mode byte, the player's lobby becomes that id, and then
        `_maybe_start` runs. A lobby against a bot (CPU or AI) starts at
        once at the given first turn and sends the player the starting
        position; any other mode waits with one seat and sends nothing. */
    twostate predicate CreatedLobby(data: seq<Byte>, new player: Player, lobby0: Option<int>, newLobbyId: int,
                                    firstTurn: int, raised: bool, onRaise: seq<Datagram>)
      requires 1 <= newLobbyId < 65535 && IsPlayer(firstTurn)
      reads *
    {
      InitialCounts();
      LobbiesKept(None) && (raised <==> |data| < 2) &&
      if raised then
        lobbies == old(lobbies) && player.lobbyId == lobby0 && outbox == old(outbox) + onRaise
      else
        newLobbyId in lobbies && fresh(lobbies[newLobbyId]) &&
        lobbies == old(lobbies)[newLobbyId := lobbies[newLobbyId]] && player.lobbyId == Some(newLobbyId) &&
        var lb := lobbies[newLobbyId];
        lb.Valid() && lb.mode == data[1] && Snapshot(lb.board) == InitialGrid && lb.winner == None && lb.chatHistory == [] &&
        if data[1] in {PLAYER_VS_CPU, PLAYER_VS_AI} then
          lb.players == [Human(player.playerId), if data[1] == PLAYER_VS_AI then Ai else Cpu] &&
          lb.playerAddresses == [Some(player.address), None] &&
          lb.started && lb.status == PLAYING && lb.turnIndex == firstTurn && lb.lastHash == Some(lb.Hash()) &&
          outbox == old(outbox) +
            [Datagram(player.address, GameStateFrame(GameState(newLobbyId, PLAYING, firstTurn, 2, 2, Flatten(InitialGrid))))]
        else
          lb.players == [Human(player.playerId)] && lb.playerAddresses == [Some(player.address)] &&
          !lb.started && lb.status == WAITING && lb.turnIndex == 0 && lb.lastHash == None && outbox == old(outbox)
    }

    /** `_handle_create_lobby`. */
    method HandleCreateLobby(data: seq<Byte>, player: Player, newLobbyId: int, firstTurn: int) returns (raised: bool)
      requires Valid() && 1 <= newLobbyId < 65535 && newLobbyId !in lobbies && IsPlayer(firstTurn)
      modifies this`lobbies, this`outbox, player`lobbyId
      ensures Valid() && CreatedLobby(data, player, old(player.lobbyId), newLobbyId, firstTurn, raised, [])
    {
      if |data| < 2 {
        return true;
      }
      var lb := CreateLobby(data[1], player, newLobbyId, firstTurn);
      if data[1] in {PLAYER_VS_CPU, PLAYER_VS_AI} {
        InitialStateFrame(lb);
      }
      return false;
    }

    /** The new lobby filed under its id with the player seated in it. */
    method JoinNewLobby(mode: Byte, player: Player, newLobbyId: int) returns (lb: Lobby)
      requires Valid() && 1 <= newLobbyId < 65535 && newLobbyId !in lobbies
      modifies this`lobbies, player`lobbyId
      ensures Valid()
      ensures fresh(lb) && lobbies == old(lobbies)[newLobbyId := lb] && player.lobbyId == Some(newLobbyId)
      ensures lb.Valid() && lb.lobbyId == newLobbyId && lb.mode == mode && Snapshot(lb.board) == InitialGrid
      ensures lb.players == [Human(player.playerId)] && lb.playerAddresses == [Some(player.address)]
      ensures !lb.started && lb.turnIndex == 0 && lb.status == WAITING && lb.winner == None
      ensures lb.chatHistory == [] && lb.lastHash == None
    {
      lb := OpenLobby(newLobbyId, mode, player);
      AddLobby(lb);
      player.lobbyId := Some(newLobbyId);
    }

    /** `_handle_create_lobby` once the mode byte is read. */
    method CreateLobby(mode: Byte, player: Player, newLobbyId: int, firstTurn: int) returns (lb: Lobby)
      requires Valid() && 1 <= newLobbyId < 65535 && newLobbyId !in lobbies && IsPlayer(firstTurn)
      modifies this`lobbies, this`outbox, player`lobbyId
      ensures Valid()
      ensures fresh(lb) && lobbies == old(lobbies)[newLobbyId := lb] && player.lobbyId == Some(newLobbyId)
      ensures lb.Valid() && lb.mode == mode && Snapshot(lb.board) == InitialGrid
      ensures lb.winner == None && lb.chatHistory == []
      ensures mode in {PLAYER_VS_CPU, PLAYER_VS_AI} ==>
        lb.players == [Human(player.playerId), if mode == PLAYER_VS_AI then Ai else Cpu] &&
        lb.playerAddresses == [Some(player.address), None] &&
        lb.started && lb.status == PLAYING && lb.turnIndex == firstTurn && lb.lastHash == Some(lb.Hash()) &&
        outbox == old(outbox) + [Datagram(player.address, lb.StateFrame())]
      ensures mode !in {PLAYER_VS_CPU, PLAYER_VS_AI} ==>
        lb.players == [Human(player.playerId)] && lb.playerAddresses == [Some(player.address)] &&
        !lb.started && lb.status == WAITING && lb.turnIndex == 0 && lb.lastHash == None && outbox == old(outbox)
    {
      lb := JoinNewLobby(mode, player, newLobbyId);
      MaybeStart(newLobbyId, firstTurn);
      assert lobbies[newLobbyId] == lb;
      if mode in {PLAYER_VS_CPU, PLAYER_VS_AI} {
        StartSends(player.address, lb.StateFrame());
      }
    }
      /** `_broadcast_chat`: CHAT_MESSAGE with the lobby id, the sender's name
        cut to 50 bytes, the message cut to 60000 bytes and the time, to
        every seat with an address. */
    method BroadcastChat(lb: Lobby, sender: seq<Byte>, message: seq<Byte>, nowMs: nat)
      requires lb.Valid() && nowMs < Pow256(8)
      modifies this`outbox
      ensures outbox == old(outbox) + Sends(lb.playerAddresses,
        ChatMessageFrame(lb.lobbyId, Truncate(sender, MAX_CHAT_NAME_LENGTH), Truncate(message, MAX_CHAT_MESSAGE_LENGTH), nowMs))
    {
      var nameBytes := Truncate(sender, MAX_CHAT_NAME_LENGTH);
      var msgBytes := Truncate(message, MAX_CHAT_MESSAGE_LENGTH);
      assert Pow256(2) == 65536;
      var payload := [CHAT_MESSAGE] + BE(lb.lobbyId, 2) + [|nameBytes| as Byte] + nameBytes +
        BE(|msgBytes|, 2) + msgBytes + BE(nowMs, 8);
      SendToAll(lb.playerAddresses, payload);
    }

    /** How `_handle_chat` answers a CHAT in a lobby: the error of a frame
        `ParseChat` refuses, to the sender alone; otherwise the message
        joins the history under the sender's name and goes to every seat. */
    twostate predicate ChattedIn(lb: Lobby, data: seq<Byte>, new sender: Player, nowMs: nat)
      requires lb.Valid() && nowMs < Pow256(8)
      reads this, lb, lb.board, sender
    {
      unchanged(lb`started, lb`players, lb`playerAddresses, lb`turnIndex, lb`status, lb`winner, lb`lastHash) &&
      unchanged(lb.board) &&
      match ParseChat(data)
      case Err(code) =>
        lb.chatHistory == old(lb.chatHistory) && outbox == old(outbox) + [Datagram(sender.address, ErrorFrame(code))]
      case Ok(message) =>
        lb.chatHistory == KeepLast(old(lb.chatHistory) + [ChatEntry(sender.name, message)], MAX_CHAT_HISTORY) &&
        outbox == old(outbox) +
          Sends(lb.playerAddresses, ChatMessageFrame(lb.lobbyId, Truncate(sender.name, MAX_CHAT_NAME_LENGTH), message, nowMs))
    }

    /** `_handle_chat` once the lobby is found. */
    method ChatIn(lb: Lobby, data: seq<Byte>, player: Player, nowMs: nat)
      requires lb.Valid() && nowMs < Pow256(8)
      modifies this`outbox, lb`chatHistory
      ensures lb.Valid() && ChattedIn(lb, data, player, nowMs)
    {
      if |data| < 3 {
        SendError(player.address, BAD_REQUEST);
        return;
      }
      var msgLen := data[1] as int * 256 + data[2] as int;
      assert data[1..3][..1] == [data[1]] && [data[1]][..0] == [];
      assert FromBE([data[1]]) == data[1] as int;
      assert msgLen == FromBE(data[1..3]);
      var start := 3;
      var end := start + msgLen;
      if msgLen > MAX_CHAT_MESSAGE_LENGTH || |data| < end {
        SendError(player.address, MESSAGE_TOO_LONG);
        return;
      }
      var message := data[start..end];
      var added := lb.AddChat(player.name, message);
      BroadcastChat(lb, player.name, message, nowMs);
    }

    /** What `_handle_chat` does for a player whose `lobby_id` is `lobby0`:
        NOT_IN_LOBBY for no lobby (or lobby 0), LOBBY_NOT_FOUND for a lobby
        that is gone, otherwise `ChattedIn` that lobby. It never raises. */
    twostate predicate Chatted(data: seq<Byte>, new player: Player, lobby0: Option<int>, nowMs: nat)
      requires nowMs < Pow256(8)
      reads *
    {
      lobbies == old(lobbies) && player.lobbyId == lobby0 &&
      LobbiesKept(if lobby0.None? || lobby0.value == 0 then None else lobby0) &&
      if lobby0.None? || lobby0.value == 0 then
        outbox == old(outbox) + [Datagram(player.address, ErrorFrame(NOT_IN_LOBBY))]
      else if lobby0.value !in lobbies then
        outbox == old(outbox) + [Datagram(player.address, ErrorFrame(LOBBY_NOT_FOUND))]
      else
        lobbies[lobby0.value].Valid() && ChattedIn(lobbies[lobby0.value], data, player, nowMs)
    }

    /** `_handle_chat`. */
    method HandleChat(data: seq<Byte>, player: Player, nowMs: nat)
      requires Valid() && nowMs < Pow256(8)
      modifies this`outbox, LobbyOf(player)`chatHistory
      ensures Valid() && Chatted(data, player, old(player.lobbyId), nowMs)
    {
      if player.lobbyId.None? || player.lobbyId.value == 0 {
        SendError(player.address, NOT_IN_LOBBY);
        return;
      }
      if player.lobbyId.value !in lobbies {
        SendError(player.address, LOBBY_NOT_FOUND);
        return;
      }
      var lb := lobbies[player.lobbyId.value];
      ChatIn(lb, data, player, nowMs);
    }
      /** The part of a lobby a PLACE can change: cells, turn, status, winner
        and the last state sent. */
    ghost function Play(lb: Lobby): (Grid, int, int, Option<int>, Option<StateHash>)
      requires IsBoard(lb.board)
      reads lb, lb.board
    {
      (Snapshot(lb.board), lb.turnIndex, lb.status, lb.winner, lb.lastHash)
    }

    /** What each outcome of the checks of `_handle_place` does to a lobby
        whose play state was `before` while the outbox was `out0`: a refused
        move leaves the game as it was and sends the error to the sender; a
        frame too short to hold the move raises; an accepted move is played,
        the turn handed on (the game finished with its winner when nobody can
        move), and the new state sent to the seats. */
    ghost predicate PlayedFrom(lb: Lobby, outcome: PlaceOutcome, player: Player, raised: bool, onRaise: seq<Datagram>,
                               before: (Grid, int, int, Option<int>, Option<StateHash>), out0: seq<Datagram>)
      requires IsGrid(before.0)
      requires lb.Valid()
      reads this, lb, lb.board
    {
      match outcome
      case Rejected(code) =>
        !raised && Play(lb) == before && outbox == out0 + [Datagram(player.address, ErrorFrame(code))]
      case Malformed =>
        raised && Play(lb) == before && outbox == out0 + onRaise
      case Accepted(x, y) =>
        var after := Place(before.0, before.1, x, y);
        var (turn, over) := AfterMove(after, before.1);
        !raised &&
        Play(lb) == (after, turn, if over then FINISHED else PLAYING,
                     if over then Some(WinnerOf(after)) else before.3, Some(lb.Hash())) &&
        outbox == out0 + if before.4 == Some(lb.Hash()) then [] else Sends(lb.playerAddresses, lb.StateFrame())
    }

    /** `PlayedFrom` the lobby and the outbox as they were. */
    twostate predicate PlacedAs(lb: Lobby, outcome: PlaceOutcome, new player: Player, raised: bool, onRaise: seq<Datagram>)
      requires lb.Valid()
      reads this, lb, lb.board
    {
      PlayedFrom(lb, outcome, player, raised, onRaise, old(Play(lb)), old(outbox))
    }

    /** How `_handle_place` answers a PLACE in a lobby whose play state was
        `before`: as `PlayedFrom` the outcome of `PlaceCheck` on it. */
    ghost predicate PlacedFrom(lb: Lobby, data: seq<Byte>, player: Player, raised: bool, onRaise: seq<Datagram>,
                               before: (Grid, int, int, Option<int>, Option<StateHash>), out0: seq<Datagram>)
      requires IsGrid(before.0)
      requires lb.Valid()
      reads this, lb, lb.board
    {
      var seat := IndexOf(lb.players, Human(player.playerId));
      PlayedFrom(lb, PlaceCheck(before.2, seat, before.1, data, before.0), player, raised, onRaise, before, out0)
    }

    /** `PlacedFrom` the lobby and the outbox as they were. */
    twostate predicate PlacedIn(lb: Lobby, data: seq<Byte>, new player: Player, raised: bool, onRaise: seq<Datagram>)
      requires lb.Valid()
      reads this, lb, lb.board
    {
      unchanged(lb`started, lb`players, lb`playerAddresses, lb`chatHistory) &&
      PlacedFrom(lb, data, player, raised, onRaise, old(Play(lb)), old(outbox))
    }

    /** `_handle_place` once the lobby is found. */
    method PlaceIn(lb: Lobby, data: seq<Byte>, player: Player) returns (raised: bool)
      requires Valid() && lb in lobbies.Values
      modifies this`outbox, lb`turnIndex, lb`status, lb`winner, lb`lastHash, lb.board
      ensures Valid() && lb.Valid() && PlacedIn(lb, data, player, raised, [])
    {
      ghost var before, out0 := Play(lb), outbox;
      var seat := IndexOf(lb.players, Human(player.playerId));
      var outcome := lb.CheckPlace(seat, data);
      raised := Resolve(lb, data, outcome, player, before, out0);
    }

    /** `_handle_place` once the checks have decided: the error sent, the
        exception raised, or the move played. */
    method Resolve(lb: Lobby, data: seq<Byte>, outcome: PlaceOutcome, player: Player,
                   ghost before: (Grid, int, int, Option<int>, Option<StateHash>), ghost out0: seq<Datagram>)
      returns (raised: bool)
      requires Valid() && lb in lobbies.Values && lb.Valid() && before == Play(lb) && out0 == outbox
      requires outcome == PlaceCheck(lb.status, IndexOf(lb.players, Human(player.playerId)), lb.turnIndex, data, Snapshot(lb.board))
      modifies this`outbox, lb`turnIndex, lb`status, lb`winner, lb`lastHash, lb.board
      ensures Valid() && lb.Valid() && PlacedFrom(lb, data, player, raised, [], before, out0)
    {
      match outcome
      case Rejected(code) =>
        SendError(player.address, code);
        raised := false;
      case Malformed =>
        raised := true;
      case Accepted(x, y) =>
        PlayAccepted(lb, x, y, player);
        raised := false;
    }

    /** The accepted branch of `_handle_place`: the move is played on the
        lobby's board, the turn handed on and the new state sent; the other
        lobbies are untouched, so the server stays valid. */
    method PlayAccepted(lb: Lobby, x: int, y: int, player: Player)
      requires Valid() && lb in lobbies.Values && lb.Valid() && lb.status == PLAYING
      requires (x, y) in LegalMoves(Snapshot(lb.board), lb.turnIndex)
      modifies this`outbox, lb`turnIndex, lb`status, lb`winner, lb`lastHash, lb.board
      ensures Valid() && lb.Valid() && PlacedAs(lb, Accepted(x, y), player, false, [])
    {
      lb.PlayMove(x, y);
      SendState(lb);
      ValidAfterPlay(lb);
    }

    /** Playing in one lobby keeps the server valid: the other lobbies and
        their boards are untouched. */
    twostate lemma ValidAfterPlay(lb: Lobby)
      requires old(Valid()) && lb in old(lobbies.Values) && lb.Valid()
      requires unchanged(this`lobbies, this`playersByAddress)
      requires forall l :: l in lobbies.Values && l != lb ==> unchanged(l) && unchanged(l.board)
      ensures Valid()
    {
    }

    /** The board of the lobby a player's `lobby_id` names, if it exists. */
    ghost function BoardOf(p: Player): set<array2<int>>
      reads this`lobbies, p
    {
      set l | l in LobbyOf(p) :: l.board
    }

    /** What `_handle_place` does for a player whose `lobby_id` is `lobby0`:
        NOT_IN_LOBBY unless that lobby exists, otherwise `PlacedIn` it. */
    twostate predicate Placed(data: seq<Byte>, new player: Player, lobby0: Option<int>, raised: bool, onRaise: seq<Datagram>)
      reads *
    {
      lobbies == old(lobbies) && player.lobbyId == lobby0 && LobbiesKept(lobby0) &&
      if lobby0.None? || lobby0.value !in lobbies then
        !raised && outbox == old(outbox) + [Datagram(player.address, ErrorFrame(NOT_IN_LOBBY))]
      else
        lobbies[lobby0.value].Valid() && PlacedIn(lobbies[lobby0.value], data, player, raised, onRaise)
    }

    /** `_handle_place`. */
    method HandlePlace(data: seq<Byte>, player: Player) returns (raised: bool)
      requires Valid()
      modifies this`outbox, LobbyOf(player)`turnIndex, LobbyOf(player)`status, LobbyOf(player)`winner
      modifies LobbyOf(player)`lastHash, BoardOf(player)
      ensures Valid() && Placed(data, player, old(player.lobbyId), raised, [])
    {
      if player.lobbyId.None? || player.lobbyId.value !in lobbies {
        SendError(player.address, NOT_IN_LOBBY);
        return false;
      }
      var lb := lobbies[player.lobbyId.value];
      raised := PlaceIn(lb, data, player);
    }

    /** What `_handle_leave` does for a player whose `lobby_id` was
        `lobby0`: nothing for no lobby (or lobby 0); a player whose lobby
        is gone just forgets it; otherwise the player's first seat and its
        address are removed, the player forgets the lobby, and a lobby left
        with no seats is deleted (a bot seat keeps it alive). Nothing is
        sent. */
    twostate predicate Left(new player: Player, lobby0: Option<int>)
      reads *
    {
      outbox == old(outbox) && LobbiesKept(if lobby0.None? || lobby0.value == 0 then None else lobby0) &&
      if lobby0.None? || lobby0.value == 0 then
        player.lobbyId == lobby0 && lobbies == old(lobbies)
      else
        player.lobbyId == None &&
        if lobby0.value !in old(lobbies) then lobbies == old(lobbies)
        else
          var lb: Lobby := old(lobbies)[lobby0.value];
          unchanged(lb`started, lb`turnIndex, lb`status, lb`winner, lb`chatHistory, lb`lastHash) && unchanged(lb.board) &&
          SeatLeft(lb, player.playerId) &&
          lobbies == if lb.players == [] then old(lobbies) - {lobby0.value} else old(lobbies)
    }

    /** `_handle_leave`. */
    method HandleLeave(player: Player)
      requires Valid()
      modifies this`lobbies, player`lobbyId, LobbyOf(player)`players, LobbyOf(player)`playerAddresses
      ensures Valid() && Left(player, old(player.lobbyId))
    {
      if player.lobbyId.None? || player.lobbyId.value == 0 {
        return;
      }
      var id := player.lobbyId.value;
      if id !in lobbies {
        player.lobbyId := None;
        return;
      }
      var lb := lobbies[id];
      lb.RemoveSeat(player.playerId);
      player.lobbyId := None;
      if lb.players == [] {
        lobbies := lobbies - {lb.lobbyId};
      }
    }

    /** Whether the handler a frame reaches raises, for a player whose
        `lobby_id` is `lobbyId`: HELLO and CREATE_LOBBY without their second
        byte, and a PLACE in an existing lobby whose checks reach the move
        bytes of a frame too short to hold them. */
    ghost predicate Raises(data: seq<Byte>, lobbyId: Option<int>, playerId: int)
      requires Valid()
      reads this, lobbies.Values, Boards()
    {
      |data| >= 1 &&
      ((data[0] in {HELLO, CREATE_LOBBY} && |data| < 2) ||
       (data[0] == PLACE && lobbyId.Some? && lobbyId.value in lobbies &&
        var lb := lobbies[lobbyId.value];
        PlaceCheck(lb.status, IndexOf(lb.players, Human(playerId)), lb.turnIndex, data, Snapshot(lb.board)).Malformed?))
    }

    /** What the handler the first byte picks does, for a player whose name
        and `lobby_id` were `name0` and `lobby0`, with `onRaise` sent when
        it raises: HELLO, CREATE_LOBBY, PLACE, CHAT and LEAVE as their
        handlers; any other type, JOIN_LOBBY included, is answered
        UNKNOWN_MESSAGE_TYPE and changes nothing else. */
    twostate predicate Answered(data: seq<Byte>, new player: Player, name0: seq<Byte>, lobby0: Option<int>,
                                newLobbyId: int, firstTurn: int, nowMs: nat, raised: bool, onRaise: seq<Datagram>)
      requires |data| >= 1 && 1 <= newLobbyId < 65535 && IsPlayer(firstTurn) && nowMs < Pow256(8)
      reads *
    {
      if data[0] == HELLO then player.lobbyId == lobby0 && Helloed(data, player, name0, raised, onRaise)
      else
        player.name == name0 &&
        if data[0] == CREATE_LOBBY then CreatedLobby(data, player, lobby0, newLobbyId, firstTurn, raised, onRaise)
        else if data[0] == PLACE then Placed(data, player, lobby0, raised, onRaise)
        else if data[0] == CHAT then !raised && Chatted(data, player, lobby0, nowMs)
        else if data[0] == LEAVE then !raised && Left(player, lobby0)
        else
          !raised && lobbies == old(lobbies) && player.lobbyId == lobby0 && LobbiesKept(None) &&
          outbox == old(outbox) + [Datagram(player.address, ErrorFrame(UNKNOWN_MESSAGE_TYPE))]
    }

    /** `_handle_packet`: an empty datagram is dropped and changes nothing;
        otherwise the sender becomes (or already is) the player filed under
        its address, the first byte picks the handler as `Answered` says, and
        a handler that raises is answered BAD_REQUEST, exactly when `Raises`
        holds of the frame. No other player changes. The random player id,
        lobby id and first turn and the clock are parameters; `raised`
        reports whether the handler raised. */
    method HandlePacket(data: seq<Byte>, addr: Address, newPlayerId: int, newLobbyId: int, firstTurn: int, nowMs: nat)
      returns (raised: bool)
      requires Valid() && 1 <= newPlayerId < PLAYER_ID_BOUND
      requires 1 <= newLobbyId < 65535 && IsPlayer(firstTurn) && nowMs < Pow256(8)
      requires data != [] && data[0] == CREATE_LOBBY ==> newLobbyId !in lobbies
      modifies this, playersByAddress.Values, lobbies.Values, Boards()
      ensures Valid()
      ensures data == [] ==>
        !raised && unchanged(this) && (forall q :: q in old(playersByAddress.Values) ==> unchanged(q)) &&
        LobbiesKept(None)
      ensures data != [] ==>
        addr in playersByAddress &&
        var p := playersByAddress[addr];
        var known := addr in old(playersByAddress);
        var name0 := if known then old(playersByAddress[addr].name) else GUEST_NAME;
        var lobby0 := if known then old(playersByAddress[addr].lobbyId) else None;
        (known ==> p == old(playersByAddress[addr])) &&
        (!known ==> fresh(p) && p.address == addr && p.playerId == newPlayerId) &&
        playersByAddress == old(playersByAddress)[addr := p] &&
        playersById == (if known then old(playersById) else old(playersById)[newPlayerId := p]) &&
        (forall q :: q in old(playersByAddress.Values) && q != p ==> unchanged(q)) &&
        var pid := p.playerId;
        (raised <==> old(Raises(data, lobby0, pid))) &&
        Answered(data, p, name0, lobby0, newLobbyId, firstTurn, nowMs, raised,
                 [Datagram(addr, ErrorFrame(BAD_REQUEST))])
    {
      if data == [] {
        return false;
      }
      if addr in playersByAddress {
        // `_get_or_create_player` finds the sender and changes nothing
        raised := Respond(data, playersByAddress[addr], newLobbyId, firstTurn, nowMs);
      } else {
        var _, r := RespondToNew(data, addr, newPlayerId, newLobbyId, firstTurn, nowMs);
        raised := r;
      }
    }

    /** `_handle_packet` for a sender not yet known: `_get_or_create_player`
        files a new "Guest" under the address and the new id, then the
        frame is answered as `Respond` says, as for a player in no lobby. */
    method RespondToNew(data: seq<Byte>, addr: Address, newPlayerId: int, newLobbyId: int, firstTurn: int, nowMs: nat)
      returns (p: Player, raised: bool)
      requires Valid() && |data| >= 1 && addr !in playersByAddress && 1 <= newPlayerId < PLAYER_ID_BOUND
      requires 1 <= newLobbyId < 65535 && IsPlayer(firstTurn) && nowMs < Pow256(8)
      requires data[0] == CREATE_LOBBY ==> newLobbyId !in lobbies
      modifies this, lobbies.Values, Boards()
      ensures Valid() && fresh(p) && p.address == addr && p.playerId == newPlayerId
      ensures playersByAddress == old(playersByAddress)[addr := p] && playersById == old(playersById)[newPlayerId := p]
      ensures raised <==> old(Raises(data, None, newPlayerId))
      ensures Answered(data, p, GUEST_NAME, None, newLobbyId, firstTurn, nowMs, raised,
                       [Datagram(addr, ErrorFrame(BAD_REQUEST))])
    {
      p := GetOrCreatePlayer(addr, newPlayerId);
      assert LobbiesKept(None);
      ghost var onRaise := [Datagram(addr, ErrorFrame(BAD_REQUEST))];
      label created:
      raised := Respond(data, p, newLobbyId, firstTurn, nowMs);
      if data[0] == HELLO {
        assert Helloed@created(data, p, GUEST_NAME, raised, onRaise);
      } else if data[0] == CREATE_LOBBY {
        assert CreatedLobby@created(data, p, None, newLobbyId, firstTurn, raised, onRaise);
      } else if data[0] == PLACE {
        assert Placed@created(data, p, None, raised, onRaise);
      } else if data[0] == CHAT {
        assert Chatted@created(data, p, None, nowMs);
      } else if data[0] == LEAVE {
        assert Left@created(p, None);
      }
    }

    /** The `try` of `_handle_packet`: the handler the first byte picks,
        and BAD_REQUEST to the sender when that handler raises. */
    method Respond(data: seq<Byte>, player: Player, newLobbyId: int, firstTurn: int, nowMs: nat) returns (raised: bool)
      requires Valid() && |data| >= 1 && 1 <= player.playerId < PLAYER_ID_BOUND
      requires 1 <= newLobbyId < 65535 && IsPlayer(firstTurn) && nowMs < Pow256(8)
      requires data[0] == CREATE_LOBBY ==> newLobbyId !in lobbies
      modifies this`lobbies, this`outbox, player, lobbies.Values, Boards()
      ensures Valid()
      ensures Answered(data, player, old(player.name), old(player.lobbyId), newLobbyId, firstTurn, nowMs, raised,
                       [Datagram(player.address, ErrorFrame(BAD_REQUEST))])
      ensures raised <==> old(Raises(data, player.lobbyId, player.playerId))
    {
      var msg := data[0];
      raised := false;
      if msg == HELLO || msg == CREATE_LOBBY {
        raised := TryHandler(data, player, newLobbyId, firstTurn);
      } else if msg == PLACE {
        raised := TryPlace(data, player);
      } else if msg == CHAT {
        HandleChat(data, player, nowMs);
      } else if msg == LEAVE {
        HandleLeave(player);
      } else {
        SendError(player.address, UNKNOWN_MESSAGE_TYPE);
      }
    }

    /** `_handle_hello` and `_handle_create_lobby`, the two handlers that
        raise on a short frame, each under the `except` of `_handle_packet`,
        which answers a raise with BAD_REQUEST. */
    method TryHandler(data: seq<Byte>, player: Player, newLobbyId: int, firstTurn: int) returns (raised: bool)
      requires Valid() && |data| >= 1 && 1 <= player.playerId < PLAYER_ID_BOUND
      requires data[0] == HELLO || data[0] == CREATE_LOBBY
      requires 1 <= newLobbyId < 65535 && IsPlayer(firstTurn)
      requires data[0] == CREATE_LOBBY ==> newLobbyId !in lobbies
      modifies this`lobbies, this`outbox, player
      ensures Valid()
      ensures data[0] == HELLO ==>
        player.lobbyId == old(player.lobbyId) && Helloed(data, player, old(player.name), raised, [Datagram(player.address, ErrorFrame(BAD_REQUEST))])
      ensures data[0] == CREATE_LOBBY ==>
        player.name == old(player.name) &&
        CreatedLobby(data, player, old(player.lobbyId), newLobbyId, firstTurn, raised, [Datagram(player.address, ErrorFrame(BAD_REQUEST))])
    {
      if data[0] == HELLO {
        raised := HandleHello(data, player);
      } else {
        raised := HandleCreateLobby(data, player, newLobbyId, firstTurn);
      }
      if raised {
        SendError(player.address, BAD_REQUEST);
      }
    }

    /** `_handle_place` under the `except` of `_handle_packet`, which
        answers a malformed placement with BAD_REQUEST. */
    method TryPlace(data: seq<Byte>, player: Player) returns (raised: bool)
      requires Valid()
      modifies this`outbox, LobbyOf(player)`turnIndex, LobbyOf(player)`status, LobbyOf(player)`winner
      modifies LobbyOf(player)`lastHash, BoardOf(player)
      ensures Valid() && Placed(data, player, old(player.lobbyId), raised, [Datagram(player.address, ErrorFrame(BAD_REQUEST))])
    {
      raised := HandlePlace(data, player);
      if raised {
        SendError(player.address, BAD_REQUEST);
      }
    }
  }
}
