/**
 * The WebSocket consumer of one room connection: the dispatch of an incoming
 * message by its `type`, and the decision the ping watchdog takes.
 *
 * The `Player` table the consumer reads and writes is a `PlayerDirectory`;
 * the channel layer is replaced by return values: `replies` are the frames
 * sent back on this socket, `published` the events sent to the room's group.
 * Times are microseconds on the server clock (the resolution of `datetime`).
 */
module Consumer {
  import opened Wrappers
  import opened Protocol
  import opened GameLoop

  /** `Player.Status`. */
  datatype Status = Waiting | Ready | Playing | Finished

  /** The columns of a `Player` row the consumer uses. */
  datatype PlayerRecord = PlayerRecord(nickname: string, status: Status, isHost: bool)

  /** The `Player` table, keyed by `player_id` (no room filter is applied by the consumer). */
  class PlayerDirectory {
    var records: map<PlayerId, PlayerRecord>

    constructor (records: map<PlayerId, PlayerRecord>)
      ensures this.records == records
    {
      this.records := records;
    }

    /** `set_player_ready_status`: READY or WAITING; reports whether the player exists. */
    method SetReadyStatus(pid: Option<PlayerId>, isReady: bool) returns (found: bool)
      modifies this
      ensures found <==> pid.Some? && pid.value in old(records)
      ensures found ==> records == old(records)[pid.value := old(records)[pid.value].(status := if isReady then Ready else Waiting)]
      ensures !found ==> records == old(records)
    {
      found := pid.Some? && pid.value in records;
      if found {
        var p := pid.value;
        records := records[p := records[p].(status := if isReady then Ready else Waiting)];
      }
    }

    /** `set_player_finished`: FINISHED; reports whether the player exists. */
    method SetFinished(pid: Option<PlayerId>) returns (found: bool)
      modifies this
      ensures found <==> pid.Some? && pid.value in old(records)
      ensures found ==> records == old(records)[pid.value := old(records)[pid.value].(status := Finished)]
      ensures !found ==> records == old(records)
    {
      found := pid.Some? && pid.value in records;
      if found {
        var p := pid.value;
        records := records[p := records[p].(status := Finished)];
      }
    }
  }

  /** `get_player_info`: the row of `pid`, or nothing when there is none (or no id at all). */
  function PlayerInfo(records: map<PlayerId, PlayerRecord>, pid: Option<PlayerId>): (info: Option<PlayerRecord>)
    ensures info.Some? <==> pid.Some? && pid.value in records
    ensures info.Some? ==> info.value == records[pid.value]
  {
    if pid.Some? && pid.value in records then Some(records[pid.value]) else None
  }

  /** The nickname a heart rate is stored under: the player's, or "Unknown". */
  function NicknameOf(records: map<PlayerId, PlayerRecord>, pid: PlayerId): (nickname: string)
    ensures nickname == (if PlayerInfo(records, Some(pid)).Some? then PlayerInfo(records, Some(pid)).value.nickname else "Unknown")
  {
    if pid in records then records[pid].nickname else "Unknown"
  }

  // ---------------------------------------------------------------- dispatch

  /** The branch of `receive` a message takes. */
  datatype Route = Malformed | PingRoute | ReadyRoute | HeartRateRoute | Ignored

  function RouteOf(msg: Option<Message>): (route: Route)
    ensures route == Malformed <==> msg.None?
    ensures route == HeartRateRoute <==> msg.Some? && msg.value.kind in {Some("heart_rate"), Some("heartbeat")}
    ensures route == Ignored <==>
      msg.Some? && msg.value.kind !in {Some("ping"), Some("player_ready"), Some("heart_rate"), Some("heartbeat")}
    ensures route == PingRoute <==> msg.Some? && msg.value.kind == Some("ping")
    ensures route == ReadyRoute <==> msg.Some? && msg.value.kind == Some("player_ready")
    ensures msg.Some? && msg.value.kind.None? ==> route == Ignored
  {
    if msg.None? then Malformed
    else if msg.value.kind == Some("ping") then PingRoute
    else if msg.value.kind == Some("player_ready") then ReadyRoute
    else if msg.value.kind == Some("heart_rate") || msg.value.kind == Some("heartbeat") then HeartRateRoute
    else Ignored
  }

  /** A falsy `self.player_id`: none yet, or the empty string. */
  predicate Unbound(pid: Option<PlayerId>): (unbound: bool)
    ensures unbound <==> pid.None? || |pid.value| == 0
  {
    pid.None? || pid.value == ""
  }

  /** `self.player_id` after `msg`: a heart rate binds the connection while it is unbound. */
  function BindAfter(pid: Option<PlayerId>, msg: Option<Message>): (next: Option<PlayerId>)
    ensures !Unbound(pid) ==> next == pid
    ensures RouteOf(msg) != HeartRateRoute ==> next == pid
    ensures RouteOf(msg) == HeartRateRoute && Unbound(pid) ==> next == msg.value.playerId
  {
    if RouteOf(msg) == HeartRateRoute && Unbound(pid) then msg.value.playerId else pid
  }

  /** `self.player_id` after the messages `msgs`, received in order. */
  function BindAfterAll(pid: Option<PlayerId>, msgs: seq<Option<Message>>): (bound: Option<PlayerId>)
    ensures Unbound(bound) ==> Unbound(pid)
    ensures (forall k :: 0 <= k < |msgs| ==> RouteOf(msgs[k]) != HeartRateRoute) ==> bound == pid
  {
    if msgs == [] then pid else BindAfter(BindAfterAll(pid, msgs[..|msgs| - 1]), msgs[|msgs| - 1])
  }

  /** Once a connection is bound to a non-empty id, no later message rebinds it. */
  lemma {:induction false} BindingIsFinal(pid: Option<PlayerId>, msgs: seq<Option<Message>>)
    requires !Unbound(pid)
    ensures BindAfterAll(pid, msgs) == pid
    decreases |msgs|
  {
    if msgs != [] {
      BindingIsFinal(pid, msgs[..|msgs| - 1]);
    }
  }

  /**
   * Starting unbound, the connection ends up unbound as it was or bound to
   * the id some heart rate among `msgs` carried.
   */
  lemma {:induction false} BindingComesFromAHeartRate(pid: Option<PlayerId>, msgs: seq<Option<Message>>)
    requires Unbound(pid)
    ensures var bound := BindAfterAll(pid, msgs);
      || bound == pid
      || exists k :: 0 <= k < |msgs| && RouteOf(msgs[k]) == HeartRateRoute && bound == msgs[k].value.playerId
    decreases |msgs|
  {
    if msgs != [] {
      var init := msgs[..|msgs| - 1];
      BindingComesFromAHeartRate(pid, init);
      var before := BindAfterAll(pid, init);
      if BindAfterAll(pid, msgs) == before && before != pid {
        var k :| 0 <= k < |init| && RouteOf(init[k]) == HeartRateRoute && before == init[k].value.playerId;
        assert msgs[k] == init[k];
      }
    }
  }

  /** `is_ready` with its default: a message without the key means ready. */
  function ReadyFlag(msg: Message): (ready: bool)
    ensures msg.isReady.None? ==> ready
    ensures msg.isReady.Some? ==> ready == msg.isReady.value
  {
    msg.isReady.GetOr(true)
  }

  /** The ping timeout: more than 15 seconds without a ping. */
  const PingTimeout: int := 15_000_000

  /** One connection to a room: the consumer instance. */
  class Connection {
    const roomId: RoomId
    var playerId: Option<PlayerId>
    var lastPing: int

    /** `connect`: the room comes from the URL; no player is bound yet. */
    constructor (roomId: RoomId, now: int)
      ensures this.roomId == roomId && playerId == None && lastPing == now
    {
      this.roomId := roomId;
      playerId := None;
      lastPing := now;
    }

    /**
     * `receive`: `msg` is the decoded JSON object, or nothing when the text is
     * not JSON.  A heart rate reaching a live session must name a player and a bpm.
     */
    method Receive(msg: Option<Message>, now: int, states: GameStates, directory: PlayerDirectory)
        returns (replies: seq<Reply>, published: seq<Event>)
      requires states.Valid()
      requires RouteOf(msg) == HeartRateRoute && roomId in states.rooms ==>
        msg.value.playerId.Some? && msg.value.bpm.Some?
      modifies this, states, directory
      ensures states.Valid()
      ensures RouteOf(msg) != HeartRateRoute ==> states.rooms == old(states.rooms)
      ensures RouteOf(msg) != ReadyRoute ==> directory.records == old(directory.records)
      ensures RouteOf(msg) != PingRoute ==> lastPing == old(lastPing)
      ensures playerId == BindAfter(old(playerId), msg)
      ensures RouteOf(msg) == Malformed ==> replies == [InvalidJson] && published == []
      ensures RouteOf(msg) == PingRoute ==> lastPing == now && replies == [Pong] && published == []
      ensures RouteOf(msg) == ReadyRoute ==>
        var pid := msg.value.playerId;
        var found := pid.Some? && pid.value in old(directory.records);
        && (found ==> replies == [] && published == [PlayerReady(pid, ReadyFlag(msg.value))])
        && (found ==> directory.records == old(directory.records)[pid.value :=
              old(directory.records)[pid.value].(status := if ReadyFlag(msg.value) then Ready else Waiting)])
        && (!found ==> replies == [Error("Player not found")] && published == [])
        && (!found ==> directory.records == old(directory.records))
      ensures RouteOf(msg) == HeartRateRoute ==>
        && replies == [] && published == []
        && (roomId !in old(states.rooms) ==> states.rooms == old(states.rooms))
        && (roomId in old(states.rooms) ==>
              var pid := msg.value.playerId.value;
              states.rooms == old(states.rooms)[roomId := WithHeartRate(
                old(states.rooms)[roomId], pid, msg.value.bpm.value, NicknameOf(old(directory.records), pid))])
      ensures RouteOf(msg) == Ignored ==> replies == [] && published == []
    {
      replies, published := [], [];
      match RouteOf(msg)
      case Malformed =>
        replies := [InvalidJson];
      case PingRoute =>
        lastPing := now;
        replies := [Pong];
      case ReadyRoute =>
        var pid := msg.value.playerId;
        var isReady := ReadyFlag(msg.value);
        var found := directory.SetReadyStatus(pid, isReady);
        if found {
          published := [PlayerReady(pid, isReady)];
        } else {
          replies := [Error("Player not found")];
        }
      case HeartRateRoute =>
        if Unbound(playerId) {
          playerId := msg.value.playerId;
        }
        if roomId in states.rooms {
          var pid := msg.value.playerId.value;
          states.RecordHeartRate(roomId, pid, msg.value.bpm.value, NicknameOf(directory.records, pid));
        }
      case Ignored =>
    }

    /** One wake-up of `check_ping_timeout` at time `now`; `closed` when the socket is closed. */
    method CheckPing(now: int, directory: PlayerDirectory) returns (published: seq<Event>, closed: bool)
      modifies directory
      ensures var step := PingStep(now, lastPing, playerId, old(directory.records));
        && closed == step.TimedOut?
        && published == (if step.TimedOut? then step.notice else [])
        && directory.records == (if step.TimedOut? && step.finish.Some?
             then old(directory.records)[step.finish.value := old(directory.records)[step.finish.value].(status := Finished)]
             else old(directory.records))
    {
      published, closed := [], false;
      if now - lastPing > PingTimeout {
        var info := PlayerInfo(directory.records, playerId);
        if info.Some? {
          var _ := directory.SetFinished(playerId);
          published := [PlayerDisconnected(playerId.value, info.value.nickname)];
        }
        closed := true;
      }
    }
  }

  // ---------------------------------------------------------------- the watchdog decision

  /**
   * What one check of the watchdog does: keep watching, or close the socket,
   * after marking the bound player finished and telling the room, when there
   * is such a player.
   */
  datatype WatchdogStep = KeepWatching | TimedOut(finish: Option<PlayerId>, notice: seq<Event>)

  function PingStep(now: int, lastPing: int, playerId: Option<PlayerId>, records: map<PlayerId, PlayerRecord>): (step: WatchdogStep)
    ensures step.TimedOut? <==> now - lastPing > PingTimeout
    ensures step.TimedOut? ==> (step.finish.Some? <==> playerId.Some? && playerId.value in records)
    ensures step.TimedOut? && step.finish.Some? ==>
      step.finish == playerId && step.notice == [PlayerDisconnected(playerId.value, records[playerId.value].nickname)]
    ensures step.TimedOut? && step.finish.None? ==> step.notice == []
  {
    if now - lastPing > PingTimeout then
      var info := PlayerInfo(records, playerId);
      if info.Some? then TimedOut(playerId, [PlayerDisconnected(playerId.value, info.value.nickname)])
      else TimedOut(None, [])
    else KeepWatching
  }
}
