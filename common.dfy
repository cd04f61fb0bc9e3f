/**
 * The messages of src/common.rs that travel between the server and its
 * clients, and the period a client must wait between two moves.
 */
module Common {
  import opened Game

  /** MOVE_PERIOD, in milliseconds: the least time between two moves of one client. */
  const MOVE_PERIOD: nat := 130

  /** Messages the server sends to a client. */
  datatype Clientward =
    | Welcome(essence: GameStateEssence)
    | AddPlayer(moniker: Moniker, coord: Coord2D)
    | RemovePlayer(moniker: Moniker)
    | UpdMove(moniker: Moniker, dir: Direction)
    | ErrorTakenMoniker
    | ErrorIllegalMove
    | ErrorSocketDead
    | ErrorExpectedReq
    | ErrorExpectedHello

  /** Messages a client sends to the server. */
  datatype Serverward =
    | Hello(moniker: Moniker)
    | ReqMove(dir: Direction)
}
