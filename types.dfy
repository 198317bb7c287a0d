/** Value types shared by the server components: the protocol's enums and records
    (server/src/protocol/messages.rs) and the fixed-width integers of the Rust code. */
module Types {

  datatype Option<+T> = None | Some(value: T)

  datatype Result<+T, +E> = Ok(value: T) | Err(error: E)

  /** Rust's fixed-width unsigned integers, as ranges of the unbounded `int`. */
  type u8 = x: int | 0 <= x < 0x100
  type u32 = x: int | 0 <= x < 0x1_0000_0000
  type u64 = x: int | 0 <= x < 0x1_0000_0000_0000_0000

  const U64_MAX: u64 := 0xFFFF_FFFF_FFFF_FFFF

  /** Connection ids are handed out by an atomic counter that starts at 1. */
  type ConnectionId = u64

  type PlayerId = string
  type RoomId = string

  datatype Role = Human | Ai
  datatype Team = Human | Ai

  datatype Score = Score(human: nat, ai: nat)

  datatype ErrorCode =
    | InvalidHello
    | AuthFailed
    | RoomFull
    | InvalidMove
    | NotYourTurn
    | ProtocolError
    | Timeout

  datatype RejectReason = NotInHand | NotLegal | NotYourTurn

  datatype PlayerInfo = PlayerInfo(id: PlayerId, nickname: string, role: Role, team: Option<Team>)

  datatype TablePlay = TablePlay(playerId: PlayerId, card: string)

  datatype TrickHistory = TrickHistory(trick: nat, winner: PlayerId, cards: seq<string>)

  datatype ClientMessage =
    | Hello(role: Role, nickname: string, proto: u32, auth: Option<string>)
    | Play(card: string)
    | Ping

  datatype ServerMessage =
    | Welcome(playerId: PlayerId, nickname: string, room: RoomId)
    | Error(code: ErrorCode, message: string)
    | RoomWait(room: RoomId, players: seq<PlayerInfo>, need: nat)
    | RoomStart(room: RoomId, players: seq<PlayerInfo>, seed: u64)
    | Deal(hand: seq<string>, totalTricks: nat)
    | YourTurn(trick: nat, table: seq<TablePlay>, legal: seq<string>, timeoutMs: nat)
    | PlayBroadcast(playerId: PlayerId, card: string, trick: nat)
    | PlayReject(card: string, reason: RejectReason)
    | TrickResult(trick: nat, plays: seq<TablePlay>, winner: PlayerId, score: Score)
    | GameOver(finalScore: Score, winningTeam: Team, history: seq<TrickHistory>)
    | Pong
}
