/** The binary datagrams of the Reversi UDP protocol: the constants of the
    wire format, big-endian packing (Python's `struct` with `!`), the
    frames the server sends (WELCOME, CHAT_MESSAGE, GAME_STATE, ERROR) with
    decoders that undo them, and the parsers of the HELLO and CHAT requests
    with the client frames they accept. */
module Frames {
  import opened Wrappers
  import opened Rules

  type Byte = x: int | 0 <= x < 256

  // Message types
  const HELLO: Byte := 1
  const CREATE_LOBBY: Byte := 3
  /** Part of the protocol's MessageType enum; `_handle_packet` never
      dispatches it, so it gets UNKNOWN_MESSAGE_TYPE like any other
      undispatched type. */
  const JOIN_LOBBY: Byte := 4
  const LEAVE: Byte := 5
  const PLACE: Byte := 6
  const CHAT: Byte := 9
  const WELCOME: Byte := 101
  const GAME_STATE: Byte := 105
  const CHAT_MESSAGE: Byte := 110
  const ERROR: Byte := 199

  // Error codes
  const BAD_REQUEST: Byte := 1
  const LOBBY_NOT_FOUND: Byte := 3
  const NOT_IN_LOBBY: Byte := 5
  const GAME_NOT_ACTIVE: Byte := 6
  const NOT_YOUR_TURN: Byte := 7
  const ILLEGAL_MOVE: Byte := 8
  /** Part of the protocol's ErrorCode enum; the one send of it
      (server/reversi_server.py, lines 553-554) follows a check that cannot fail, so no
      modelled path sends it. */
  const APPLY_FAILED: Byte := 9
  const UNKNOWN_MESSAGE_TYPE: Byte := 10
  const SPECTATOR_MOVE_NOT_ALLOWED: Byte := 11
  const MESSAGE_TOO_LONG: Byte := 12

  // Limits
  const MAX_CHAT_HISTORY := 50
  const MAX_CHAT_MESSAGE_LENGTH := 60000
  const MAX_CHAT_NAME_LENGTH := 50

  /** The name a HELLO without a name gives the player: "Player". */
  const DEFAULT_NAME: seq<Byte> := [80, 108, 97, 121, 101, 114]

  /** 256 to the power w: the values that fit in w bytes. */
  function Pow256(w: nat): (r: nat)
    ensures r >= 1
  {
    if w == 0 then 1 else 256 * Pow256(w - 1)
  }

  /** n packed big-endian into w bytes. */
  function BE(n: nat, w: nat): (r: seq<Byte>)
    requires n < Pow256(w)
    ensures |r| == w
  {
    if w == 0 then [] else BE(n / 256, w - 1) + [n % 256]
  }

  /** The number a big-endian byte string stands for. */
  function FromBE(s: seq<Byte>): nat {
    if s == [] then 0 else 256 * FromBE(s[..|s| - 1]) + s[|s| - 1]
  }

  /** What w bytes can hold is below 256^w. */
  lemma {:induction false} FromBEBound(s: seq<Byte>)
    ensures FromBE(s) < Pow256(|s|)
  {
    if s != [] {
      FromBEBound(s[..|s| - 1]);
    }
  }

  /** Unpacking undoes packing. */
  lemma {:induction false} FromBEOfBE(n: nat, w: nat)
    requires n < Pow256(w)
    ensures FromBE(BE(n, w)) == n
  {
    if w > 0 {
      FromBEOfBE(n / 256, w - 1);
      var s := BE(n, w);
      assert s[..w - 1] == BE(n / 256, w - 1);
    }
  }

  /** Packing undoes unpacking. */
  lemma {:induction false} BEOfFromBE(s: seq<Byte>)
    ensures FromBE(s) < Pow256(|s|) && BE(FromBE(s), |s|) == s
  {
    FromBEBound(s);
    if s != [] {
      var init := s[..|s| - 1];
      BEOfFromBE(init);
      var n := FromBE(s);
      assert n / 256 == FromBE(init) && n % 256 == s[|s| - 1];
      assert s == init + [s[|s| - 1]];
    }
  }

  /** ERROR: the type byte and the code. */
  function ErrorFrame(code: Byte): (r: seq<Byte>)
    ensures |r| == 2 && r[0] == ERROR && r[1] == code
  {
    [ERROR, code]
  }

  function DecodeError(s: seq<Byte>): Option<Byte> {
    if |s| == 2 && s[0] == ERROR then Some(s[1]) else None
  }

  lemma ErrorRoundTrip(code: Byte, s: seq<Byte>)
    ensures DecodeError(ErrorFrame(code)) == Some(code)
    ensures DecodeError(s) == Some(code) ==> ErrorFrame(code) == s
  {
  }

  /** WELCOME: the type byte, the player id as four bytes, the name length
      as one byte, then the name. */
  function WelcomeFrame(playerId: nat, name: seq<Byte>): (r: seq<Byte>)
    requires playerId < Pow256(4) && |name| < 256
    ensures |r| == 6 + |name| && r[0] == WELCOME && r[5] == |name| && r[6..] == name
  {
    [WELCOME] + BE(playerId, 4) + [|name| as Byte] + name
  }

  datatype Welcome = Welcome(playerId: nat, name: seq<Byte>)

  function DecodeWelcome(s: seq<Byte>): Option<Welcome> {
    if |s| >= 6 && s[0] == WELCOME && s[5] == |s| - 6 then Some(Welcome(FromBE(s[1..5]), s[6..])) else None
  }

  /** A WELCOME decodes to the id and name it was built from, and every
      frame that decodes is the WELCOME of what it decodes to. */
  lemma WelcomeRoundTrip(playerId: nat, name: seq<Byte>, s: seq<Byte>)
    requires playerId < Pow256(4) && |name| < 256
    ensures DecodeWelcome(WelcomeFrame(playerId, name)) == Some(Welcome(playerId, name))
    ensures DecodeWelcome(s).Some? ==>
      (DecodeWelcome(s).value.playerId < Pow256(4) && |DecodeWelcome(s).value.name| < 256 &&
       WelcomeFrame(DecodeWelcome(s).value.playerId, DecodeWelcome(s).value.name) == s)
  {
    var f := WelcomeFrame(playerId, name);
    assert f[1..5] == BE(playerId, 4);
    FromBEOfBE(playerId, 4);
    if DecodeWelcome(s).Some? {
      BEOfFromBE(s[1..5]);
      assert s == [s[0]] + s[1..5] + [s[5]] + s[6..];
    }
  }

  /** CHAT_MESSAGE: the type byte, the lobby id as two bytes, the sender
      name length and name, the message length as two bytes and message,
      and the send time in milliseconds as eight bytes. */
  function ChatMessageFrame(lobbyId: nat, name: seq<Byte>, message: seq<Byte>, timeMs: nat): (r: seq<Byte>)
    requires lobbyId < Pow256(2) && |name| < 256 && |message| < Pow256(2) && timeMs < Pow256(8)
    ensures |r| == 14 + |name| + |message| && r[0] == CHAT_MESSAGE && r[3] == |name|
  {
    [CHAT_MESSAGE] + BE(lobbyId, 2) + [|name| as Byte] + name + BE(|message|, 2) + message + BE(timeMs, 8)
  }

  datatype ChatMessage = ChatMessage(lobbyId: nat, name: seq<Byte>, message: seq<Byte>, timeMs: nat)

  function DecodeChatMessage(s: seq<Byte>): Option<ChatMessage> {
    if |s| < 4 || s[0] != CHAT_MESSAGE then None
    else
      var n := s[3] as int;
      if |s| < 6 + n then None
      else
        var m := FromBE(s[4 + n..6 + n]);
        if |s| != 14 + n + m then None
        else Some(ChatMessage(FromBE(s[1..3]), s[4..4 + n], s[6 + n..6 + n + m], FromBE(s[6 + n + m..])))
  }

  /** A CHAT_MESSAGE decodes to the fields it was built from. */
  lemma ChatMessageRoundTrip(lobbyId: nat, name: seq<Byte>, message: seq<Byte>, timeMs: nat)
    requires lobbyId < Pow256(2) && |name| < 256 && |message| < Pow256(2) && timeMs < Pow256(8)
    ensures DecodeChatMessage(ChatMessageFrame(lobbyId, name, message, timeMs)) ==
      Some(ChatMessage(lobbyId, name, message, timeMs))
  {
    var f := ChatMessageFrame(lobbyId, name, message, timeMs);
    var n, m := |name|, |message|;
    assert f[1..3] == BE(lobbyId, 2);
    assert f[4..4 + n] == name;
    assert f[4 + n..6 + n] == BE(m, 2);
    assert f[6 + n..6 + n + m] == message;
    assert f[6 + n + m..] == BE(timeMs, 8);
    FromBEOfBE(lobbyId, 2);
    FromBEOfBE(m, 2);
    FromBEOfBE(timeMs, 8);
  }

  /** Every frame that decodes as a CHAT_MESSAGE is the frame of what it
      decodes to. */
  lemma ChatMessageDecodeExact(s: seq<Byte>)
    requires DecodeChatMessage(s).Some?
    ensures var c := DecodeChatMessage(s).value;
      c.lobbyId < Pow256(2) && |c.name| < 256 && |c.message| < Pow256(2) && c.timeMs < Pow256(8) &&
      ChatMessageFrame(c.lobbyId, c.name, c.message, c.timeMs) == s
  {
    var n := s[3] as int;
    var m := FromBE(s[4 + n..6 + n]);
    BEOfFromBE(s[1..3]);
    BEOfFromBE(s[4 + n..6 + n]);
    BEOfFromBE(s[6 + n + m..]);
    assert s == [s[0]] + s[1..3] + [s[3]] + s[4..4 + n] + s[4 + n..6 + n] + s[6 + n..6 + n + m] + s[6 + n + m..];
  }

  /** The fields of a GAME_STATE frame; `cells` is the board row by row. */
  datatype GameState = GameState(lobbyId: nat, status: Byte, turn: Byte, black: Byte, white: Byte, cells: seq<Byte>)

  predicate WellFormedState(st: GameState) {
    st.lobbyId < Pow256(2) && |st.cells| == 64
  }

  /** GAME_STATE: the type byte, the lobby id as two bytes, status, turn,
      the constant 255, the black and white counts, a zero byte, and the 64
      cells; 73 bytes in all. */
  function GameStateFrame(st: GameState): (r: seq<Byte>)
    requires WellFormedState(st)
    ensures |r| == 73 && r[0] == GAME_STATE && r[3] == st.status && r[4] == st.turn
    ensures r[5] == 255 && r[6] == st.black && r[7] == st.white && r[8] == 0 && r[9..] == st.cells
  {
    [GAME_STATE] + BE(st.lobbyId, 2) + [st.status, st.turn, 255, st.black, st.white, 0] + st.cells
  }

  function DecodeGameState(s: seq<Byte>): Option<GameState> {
    if |s| == 73 && s[0] == GAME_STATE && s[5] == 255 && s[8] == 0 then
      Some(GameState(FromBE(s[1..3]), s[3], s[4], s[6], s[7], s[9..]))
    else None
  }

  /** A GAME_STATE decodes to the state it was built from, and every frame
      that decodes is the GAME_STATE of what it decodes to. */
  lemma GameStateRoundTrip(st: GameState, s: seq<Byte>)
    requires WellFormedState(st)
    ensures DecodeGameState(GameStateFrame(st)) == Some(st)
    ensures DecodeGameState(s).Some? ==>
      (WellFormedState(DecodeGameState(s).value) && GameStateFrame(DecodeGameState(s).value) == s)
  {
    var f := GameStateFrame(st);
    assert f[1..3] == BE(st.lobbyId, 2);
    FromBEOfBE(st.lobbyId, 2);
    if DecodeGameState(s).Some? {
      BEOfFromBE(s[1..3]);
      assert s == [s[0]] + s[1..3] + s[3..9] + s[9..];
    }
  }

  /** The board row by row, as `_send_state` lays it out. */
  function Flatten(g: Grid): (r: seq<Byte>)
    requires IsGrid(g) && CellsOk(g)
    ensures |r| == 64
  {
    seq(64, i requires 0 <= i < 64 => g[i / 8][i % 8] as Byte)
  }

  /** Cell (x, y) is byte 8 * y + x of the flattened board. */
  lemma FlattenRowMajor(g: Grid)
    requires IsGrid(g) && CellsOk(g)
    ensures forall y, x :: 0 <= y < 8 && 0 <= x < 8 ==> Flatten(g)[8 * y + x] == g[y][x]
  {
    forall y, x | 0 <= y < 8 && 0 <= x < 8
      ensures Flatten(g)[8 * y + x] == g[y][x]
    {
      var i := 8 * y + x;
      assert i / 8 == y && i % 8 == x;
    }
  }

  /** HELLO as a client sends it: the type byte, the name length, the name. */
  function HelloFrame(name: seq<Byte>): (r: seq<Byte>)
    requires |name| < 256
    ensures |r| == 2 + |name| && r[0] == HELLO
  {
    [HELLO, |name| as Byte] + name
  }

  /** The name `_handle_hello` takes from a HELLO: None when the frame has
      no length byte (the server's IndexError), "Player" when the length is
      zero, otherwise up to that many bytes after the length byte. */
  function ParseHello(data: seq<Byte>): (r: Option<seq<Byte>>)
    ensures r.None? <==> |data| < 2
    ensures r.Some? ==> |r.value| < 256
  {
    if |data| < 2 then None
    else if data[1] == 0 then Some(DEFAULT_NAME)
    else if |data| < 2 + data[1] as int then Some(data[2..])
    else Some(data[2..2 + data[1] as int])
  }

  /** The name a client puts in a HELLO is the name the server takes,
      and an empty name becomes "Player". */
  lemma HelloRoundTrip(name: seq<Byte>, extra: seq<Byte>)
    requires |name| < 256
    ensures ParseHello(HelloFrame(name) + extra) == Some(if name == [] then DEFAULT_NAME else name)
  {
    var f := HelloFrame(name) + extra;
    assert f[2..2 + |name|] == name;
  }

  /** CHAT as a client sends it: the type byte, the message length as two
      bytes, the message. */
  function ChatFrame(message: seq<Byte>): (r: seq<Byte>)
    requires |message| < Pow256(2)
    ensures |r| == 3 + |message| && r[0] == CHAT
  {
    [CHAT] + BE(|message|, 2) + message
  }

  /** The message `_handle_chat` takes from a CHAT: BAD_REQUEST under three
      bytes, MESSAGE_TOO_LONG when the declared length is over 60000 or
      runs past the end of the frame, otherwise the declared bytes. */
  function ParseChat(data: seq<Byte>): (r: Result<seq<Byte>, Byte>)
    ensures r.Err? ==> r.error in {BAD_REQUEST, MESSAGE_TOO_LONG}
    ensures r.Err? && r.error == BAD_REQUEST <==> |data| < 3
    ensures r.Ok? ==> |r.value| <= MAX_CHAT_MESSAGE_LENGTH && 3 + |r.value| <= |data| && r.value == data[3..3 + |r.value|]
  {
    if |data| < 3 then Err(BAD_REQUEST)
    else
      var msgLen := FromBE(data[1..3]);
      if msgLen > MAX_CHAT_MESSAGE_LENGTH || |data| < 3 + msgLen then Err(MESSAGE_TOO_LONG)
      else Ok(data[3..3 + msgLen])
  }

  /** A CHAT of at most 60000 bytes carries its message, whatever follows
      it; a longer one is refused as too long. */
  lemma ChatRoundTrip(message: seq<Byte>, extra: seq<Byte>)
    requires |message| < Pow256(2)
    ensures |message| <= MAX_CHAT_MESSAGE_LENGTH ==> ParseChat(ChatFrame(message) + extra) == Ok(message)
    ensures |message| > MAX_CHAT_MESSAGE_LENGTH ==> ParseChat(ChatFrame(message) + extra) == Err(MESSAGE_TOO_LONG)
  {
    var f := ChatFrame(message) + extra;
    assert f[1..3] == BE(|message|, 2);
    FromBEOfBE(|message|, 2);
    assert f[3..3 + |message|] == message;
  }

  /** A CHAT whose declared length runs past the end of the frame is
      refused as too long. */
  lemma ChatTruncated(message: seq<Byte>, k: nat)
    requires |message| < Pow256(2) && k < |message|
    ensures ParseChat(ChatFrame(message)[..3 + k]) == Err(MESSAGE_TOO_LONG)
  {
    var f := ChatFrame(message)[..3 + k];
    assert f[1..3] == BE(|message|, 2);
    FromBEOfBE(|message|, 2);
  }
}
