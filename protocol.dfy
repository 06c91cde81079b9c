/**
 * The values exchanged by the room engine: the decoded inbound message, the
 * replies a connection sends to its own client, and the events published to
 * a room's broadcast group.
 */
module Protocol {
  import opened Wrappers

  type PlayerId = string
  type RoomId = string

  /**
   * An inbound JSON object after decoding, reduced to the keys the dispatcher
   * reads; `None` stands for a missing key (`data.get(key)` returning None).
   */
  datatype Message = Message(
    kind: Option<string>,       // 'type'
    playerId: Option<PlayerId>, // 'player_id'
    isReady: Option<bool>,      // 'is_ready'
    bpm: Option<int>)           // 'bpm'

  /** What a connection sends to its own client only. */
  datatype Reply =
    | InvalidJson            // {'error': 'Invalid JSON'}
    | Pong                   // {'type': 'pong'}
    | Error(message: string) // {'type': 'error', 'message': ...}

  /** One row of a `bpm_update` ranking. */
  datatype RankEntry = RankEntry(playerId: PlayerId, nickname: string, bpm: int, diff: int)

  /** One row of the final results before its rank is attached. */
  datatype Standing = Standing(playerId: PlayerId, nickname: string, minBpm: int, maxBpm: int, avgMae: real)

  /** One row of `game_end` results: a standing and its rank. */
  datatype RankedStanding = RankedStanding(standing: Standing, rank: int)

  /** Events published to a room's group (`group_send`). */
  datatype Event =
    | PlayerReady(readyPlayer: Option<PlayerId>, isReady: bool)
    | BpmUpdate(rankings: seq<RankEntry>)
    | GameEnd(results: seq<RankedStanding>)
    | PlayerDisconnected(goner: PlayerId, nickname: string)
}
