# Heart-sync room engine

This is a Dafny model of the room game engine of the heart-rate synchronisation game backend. It covers four parts:

- **The game loop.** `start_game_loop` seeds a session in the in-memory registry `game_states`. Then, once a second, it records every player's distance from the target bpm and publishes a ranking sorted by `(diff, bpm)`. At the end it publishes the final results, ranked by mean error, and removes the session.
- **The message dispatch.** This is `GameConsumer.receive` for one WebSocket connection. It handles `ping`, `player_ready` and `heart_rate`/`heartbeat`, plus a malformed frame.
- **The ping watchdog.** This is the decision `check_ping_timeout` takes on each wake-up.
- **The REST validators.** These are the game-start request (field bounds and `validate`), the join nickname and the QR-code link of a room.

Modules:

- `Wrappers`: `Option` and `Result`.
- `Sorting`: a stable sort that stands in for Python's `list.sort`. It is proved sorted, a permutation and stable.
- `Protocol`: the inbound message, the replies and the events published to a room group.
- `GameLoop`: the session value and the reference functions of seeding, a heart-rate write, a tick and the results. Each loop of `start_game_loop` is a method proved equal to its reference function. `GameStates` is the registry class.
- `GameProperties`: what the game promises, proved about those functions.
- `GameScenario`: a two-player, two-second game worked through to its published events.
- `Consumer`: the `Player` table as a class, the connection class with `Receive` and `CheckPing`, and the pure watchdog step.
- `Serializers`: the request validators.

Python dicts iterate in insertion order, and both the rankings and the results are built by iterating one. So a session carries the key order of `current_bpm` and of `mae_history` as sequences. Ties in the rankings and results are resolved by that order.

## Model

| member | source | states |
|---|---|---|
| GameLoop.Seed | rooms/consumers.py:244-263 | the seeded session is well formed and tickable, has a `current_bpm` key for exactly the roster ids, and keeps the target and bounds |
| GameLoop.SeedSession | rooms/consumers.py:244-263 | the seeding loop builds exactly `Seed` of the roster |
| GameProperties.SeedOrder | rooms/consumers.py:257-263 | seeding keys `current_bpm` by roster id in order of first appearance, and `mae_history` in the same order |
| GameProperties.SeedAtTarget | rooms/consumers.py:257-263 | after seeding, every player's sample is at the target bpm and the player's bpm and error histories are empty |
| GameProperties.SeedNicknames | rooms/consumers.py:257-261 | every seeded sample carries its roster nickname; when an id repeats, the last entry's nickname wins |
| GameLoop.WithHeartRate | rooms/consumers.py:87-101 | a heart-rate write keeps the session well formed, and keeps it tickable when the id has an error history |
| GameProperties.HeartRateTouchesOnlyItsPlayer | rooms/consumers.py:93-101 | a heart rate sets the player's sample to (bpm, nickname) and appends bpm to the player's history, creating it when absent; a new id is appended to the key order; every other player, the error histories and the settings are unchanged |
| GameLoop.ApplyReadings | rooms/consumers.py:87-101 | heart rates applied in arrival order leave the error histories and their order unchanged, and keep the session tickable when every id is a roster id |
| GameProperties.HeartRateIsOneReading | rooms/consumers.py:93-101 | one heart-rate message is a batch of one reading |
| GameProperties.ApplyReadingsConcat | rooms/consumers.py:93-101 | applying two batches one after the other is applying their concatenation |
| GameLoop.PutKeepsOrder | rooms/consumers.py:93 | a dict write keeps the existing key order, leaves it unchanged for an existing key and puts a new key last; the keys stay distinct |
| GameLoop.Diff | rooms/consumers.py:274 | the diff is non-negative and is `bpm - target` or `target - bpm` |
| GameLoop.Min | rooms/consumers.py:307 | `min` of a non-empty list is an element of it and bounds every element from below |
| GameLoop.Max | rooms/consumers.py:308 | `max` of a non-empty list is an element of it and bounds every element from above |
| GameLoop.Ticked | rooms/consumers.py:271-277 | a tick keeps the session well formed and the set of error-history keys, and lengthens each history by one |
| GameProperties.TickRecordsOneDiffEach | rooms/consumers.py:271-277 | a tick appends exactly `abs(bpm - target)` to the error history of every `current_bpm` key, keeps the earlier entries, and changes nothing else |
| GameLoop.TickSession | rooms/consumers.py:270-287 | the tick loop produces exactly the ticked session and the stable sort of the rows by `(diff, bpm)` |
| GameLoop.RecordDiff | rooms/consumers.py:277 | appending one player's diff moves the partly-ticked history map one key on, in `current_bpm` order |
| GameLoop.TickedByKeys | rooms/consumers.py:271-277 | once every key has its diff, the history map is that of the ticked session |
| GameProperties.RankLeIsTotalPreorder | rooms/consumers.py:287 | the `(diff, bpm)` order is total and transitive |
| GameProperties.RankingIsPermutation | rooms/consumers.py:270-287 | a ranking is a permutation of the rows, with one row per `current_bpm` key |
| GameProperties.RankingRows | rooms/consumers.py:271-284 | every ranking row is the row of a `current_bpm` key, with `diff = abs(bpm - target)` |
| GameProperties.RankingSorted | rooms/consumers.py:287 | a ranking is ascending by diff, then by bpm |
| GameProperties.RankingStable | rooms/consumers.py:287 | among rows with equal `(diff, bpm)`, the ranking lists the same rows in the same order as `current_bpm` |
| GameProperties.RankingTiesKeepOrder | rooms/consumers.py:287 | two ranking rows with equal diff and bpm appear in the order of their keys in `current_bpm` |
| GameLoop.PlayTicks | rooms/consumers.py:266-296 | playing a feed of seconds keeps the session well formed and tickable, keeps the error-history keys and target, lengthens every history by the number of seconds, and publishes one event per second |
| GameLoop.Row | rooms/consumers.py:272-284 | the ranking row of a player carries its current sample and `diff = abs(bpm - target)` |
| GameLoop.Rows | rooms/consumers.py:270-284 | the unsorted ranking has one row per `current_bpm` key, in key order, each with its diff to the target |
| GameLoop.RankLe | rooms/consumers.py:287 | a ranking row may stay before another iff the other's `(diff, bpm)` tuple is not smaller, the only comparison `list.sort` makes |
| GameProperties.TickEvent | rooms/consumers.py:266-296 | tick k publishes the sorted ranking of the session after second k's heart rates |
| GameProperties.HistoryLengthAfterTicks | rooms/consumers.py:266-277 | after the ticks, exactly the roster ids have an error history, each with one entry per tick, and both key orders are the roster's |
| GameProperties.TickRanksRoster | rooms/consumers.py:266-296 | every tick of a game publishes a `bpm_update` that has exactly one row per distinct roster id and a row for every roster id, each with its diff to the target, sorted by diff then bpm |
| GameProperties.RosterHasRows | rooms/consumers.py:270-287 | when the keys of `current_bpm` are the roster ids, every roster id has a row in the tick's ranking |
| GameProperties.RowsOfRoster | rooms/consumers.py:270-287 | when the keys of `current_bpm` are the roster ids, every row of the tick's ranking belongs to a roster id and carries `abs(bpm - target_bpm)` as its diff |
| GameLoop.MinOr0 | rooms/consumers.py:307 | the reported minimum is 0 for an empty history, and otherwise an element of it that bounds it from below |
| GameLoop.MaxOr0 | rooms/consumers.py:308 | the reported maximum is 0 for an empty history, and otherwise an element of it that bounds it from above |
| GameLoop.Sum | rooms/consumers.py:302 | `sum` of a list: 0 for the empty list, the element of a one-element list |
| GameLoop.SumBounds | rooms/consumers.py:302 | a sum of non-negative diffs is non-negative and at least each diff |
| GameLoop.AverageMae | rooms/consumers.py:301-304 | the mean error is 999 for an empty list, and otherwise the value whose product with the list length is the sum of the list |
| GameLoop.StandingOf | rooms/consumers.py:300-318 | a player's result row carries its id, the mean of its error history, its nickname or "Unknown", and 0/0 or the extremes of its bpm history |
| GameLoop.Standings | rooms/consumers.py:299-318 | the unsorted results have one row per `mae_history` key, in key order |
| GameLoop.StandingLe | rooms/consumers.py:321 | a result row may stay before another iff the other's `avg_mae` is not smaller, the only comparison `list.sort` makes |
| GameLoop.ResultRow | rooms/consumers.py:300-318 | the results loop body computes exactly the player's result row |
| GameLoop.CollectStandings | rooms/consumers.py:299-318 | the results loop yields one row per `mae_history` key, in key order |
| GameLoop.AssignRanks | rooms/consumers.py:324-325 | the result at position i gets rank i+1 and is otherwise unchanged |
| GameLoop.FinalResults | rooms/consumers.py:298-325 | the results are the rows sorted by mean error and ranked by position |
| GameLoop.Ranked | rooms/consumers.py:324-325 | ranking keeps every row in place and gives ranks within 1..N that increase strictly with the position |
| GameLoop.FinalStandings | rooms/consumers.py:298-325 | the results of a session have one entry per `mae_history` key, ranked 1..N by position, each one of the unsorted rows |
| GameProperties.StandingLeIsTotalPreorder | rooms/consumers.py:321 | the mean-error order is total and transitive |
| GameProperties.BpmRange | rooms/consumers.py:306-308 | the reported minimum and maximum are 0/0 for no heart rate; otherwise they are elements of the history and bound all of it |
| GameProperties.FinalResultsRanked | rooms/consumers.py:299-325 | there is one result per `mae_history` key, ranks are 1..N without gaps, and results ascend by mean error |
| GameProperties.FinalResultsRows | rooms/consumers.py:300-318 | each result is the row of a `mae_history` key: its mean error (999 when empty), bpm range and nickname |
| GameProperties.FinalResultsComplete | rooms/consumers.py:299-318 | every `mae_history` key has its row among the results |
| GameProperties.FinalResultsTiesKeepOrder | rooms/consumers.py:321 | results with equal mean error keep `mae_history` (roster) order |
| GameProperties.AverageOverTicks | rooms/consumers.py:301-304 | every reported average is 999 when the game had no tick, and otherwise the mean of the player's per-tick diffs, one per tick |
| GameProperties.SilentStaysIdle | rooms/consumers.py:258-261 | a player who sends no heart rate keeps the seeded target bpm and records a diff of 0 every tick |
| GameProperties.SilentPlayerScoresZero | rooms/consumers.py:258-308 | a roster player who never sends a heart rate is reported with min/max 0 and average 0, not 999, once a tick has run |
| GameLoop.GameOutcome | rooms/consumers.py:238-334 | the events of a game are one `bpm_update` per second followed by one `game_end` |
| GameProperties.GameOutcomeEvents | rooms/consumers.py:238-334 | a game publishes one `bpm_update` per second, each ranking every roster id once, sorted by diff then bpm, then one `game_end` with the final results of the last session |
| GameLoop.GameStates.constructor | rooms/consumers.py:9 | the registry starts empty |
| GameLoop.GameStates.StartGame | rooms/consumers.py:244-263 | the room's entry becomes the seeded session, overwriting any existing one; other rooms are unchanged |
| GameLoop.GameStates.RecordHeartRate | rooms/consumers.py:87-101 | only the room's session changes, by the heart-rate write |
| GameLoop.GameStates.ApplyFeed | rooms/consumers.py:87-101 | only the room's session changes, by the batch of heart rates |
| GameLoop.GameStates.Tick | rooms/consumers.py:270-296 | only the room's session changes, to the ticked session; the published event is the sorted ranking |
| GameLoop.GameStates.PlayTick | rooms/consumers.py:266-296 | one second: the heart rates that arrive during the sleep, then the tick and its ranking |
| GameLoop.GameStates.PlaySecond | rooms/consumers.py:266-296 | one more second keeps the registry valid and other rooms unchanged |
| GameLoop.GameStates.PlayAll | rooms/consumers.py:266-296 | the seconds loop leaves the room at the played session, other rooms unchanged, and publishes the per-second rankings |
| GameLoop.GameStates.Finish | rooms/consumers.py:298-337 | publishes `game_end` with the final results and deletes only the room's entry |
| GameLoop.GameStates.RunGame | rooms/consumers.py:238-337 | a whole game publishes exactly its rankings and results; afterwards the room is absent and every other room is as before |
| Consumer.PlayerDirectory.SetReadyStatus | rooms/consumers.py:190-197 | when the player exists, sets READY or WAITING and reports found; otherwise nothing changes |
| Consumer.PlayerDirectory.SetFinished | rooms/consumers.py:200-207 | when the player exists, sets FINISHED and reports found; otherwise nothing changes |
| Consumer.Connection.constructor | rooms/consumers.py:12-18 | a connection starts unbound, with its room from the URL and the last ping at connect time |
| Consumer.RouteOf | rooms/consumers.py:41-79 | no JSON object routes to the error reply; `ping` routes to the `last_ping` refresh and `pong` reply, `player_ready` to the ready-status update, `heart_rate` and `heartbeat` to the heart-rate write; any type other than these four, or none, is ignored |
| Consumer.Unbound | rooms/consumers.py:83 | `not self.player_id`: the id is missing or has length 0, Python's falsiness of a string |
| Consumer.PlayerInfo | rooms/consumers.py:176-187 | the player's row when the id names one, and nothing otherwise |
| Consumer.NicknameOf | rooms/consumers.py:89-90 | the nickname a heart rate is stored under is the looked-up player's, or "Unknown" when the lookup finds nothing |
| Consumer.ReadyFlag | rooms/consumers.py:58 | `is_ready` defaults to true when the key is missing, and is the sent value otherwise |
| Consumer.Connection.Receive | rooms/consumers.py:39-102 | bad JSON: one `Invalid JSON` reply. `ping`: refreshes the last ping and replies `pong`. `player_ready`: broadcasts (id, is_ready, default true) iff the player exists, else one `Player not found` reply. Heart rate: binds an unbound connection and writes into a live session only. Other types: nothing. Each route leaves the other state unchanged |
| Consumer.BindAfter | rooms/consumers.py:83-84 | only a heart rate binds, and only while the connection is unbound |
| Consumer.BindAfterAll | rooms/consumers.py:83-84 | after a sequence of messages a bound connection stays bound, and without a heart rate the binding does not change |
| Consumer.BindingIsFinal | rooms/consumers.py:83-84 | once bound to a non-empty id, no sequence of later messages rebinds the connection |
| Consumer.BindingComesFromAHeartRate | rooms/consumers.py:79-84 | an unbound connection ends unbound or bound to the id of one of the heart rates it received |
| Consumer.PingStep | rooms/consumers.py:215-229 | times out iff more than 15 s passed since the last ping; on timeout it finishes and announces the player only when the record exists, and closes in both cases |
| Consumer.Connection.CheckPing | rooms/consumers.py:215-230 | a wake-up closes, publishes and updates the player table exactly as `PingStep` decides |
| Serializers.IsSpace | rooms/serializers.py:80 | the characters `str.strip` removes: the ASCII whitespace characters are spaces, letters, digits and `_` are not |
| Serializers.Trim | rooms/serializers.py:80 | the stripped value neither starts nor ends with whitespace |
| Serializers.TrimStart | rooms/serializers.py:80 | removes a whitespace prefix and nothing else |
| Serializers.TrimEnd | rooms/serializers.py:80 | removes a whitespace suffix and nothing else |
| Serializers.TrimIdempotent | rooms/serializers.py:80 | stripping twice is stripping once |
| Serializers.TrimIsInfix | rooms/serializers.py:80 | a stripped value is an infix of the input with only whitespace around it |
| Serializers.CleanChar | rooms/serializers.py:80 | a `CharField` accepts the stripped value iff it is non-empty and has no NUL |
| Serializers.CleanNickname | rooms/serializers.py:63 | a nickname is accepted iff the stripped value is a valid `CharField` of 2 to 10 characters |
| Serializers.NicknameStable | rooms/serializers.py:63 | an accepted nickname is accepted again unchanged |
| Serializers.FailingFields | rooms/serializers.py:80-84 | each field fails exactly when its bound is violated: blank player id, unknown mode, time limit below 1, bpm outside 50..200 |
| Serializers.Validate | rooms/serializers.py:86-95 | `validate` fails iff `bpm_min >= bpm_max`, with its message, and otherwise returns the data unchanged |
| Serializers.CleanGameStart | rooms/serializers.py:80-95 | an accepted request has a stripped, non-blank player id, a known mode, a time limit of at least 1 and 50 <= bpm_min < bpm_max <= 200, all as sent; a refusal is the set of failing fields or the range error |
| Serializers.GameStartAccepted | rooms/serializers.py:80-95 | a request is accepted iff the player id is valid, the mode is a choice, the time limit is at least 1 and 50 <= bpm_min < bpm_max <= 200 |
| Serializers.FieldErrorsComeFirst | rooms/serializers.py:80-95 | failing fields are reported as field errors whatever the bpm range; the range error appears iff every field passed and `bpm_min >= bpm_max` |
| Serializers.QrCodeUrl | rooms/serializers.py:41 | the link is the fixed qrserver prefix followed by the room code and nothing else |
| Serializers.RoomCodeOf | rooms/serializers.py:41 | a text carries a code iff it starts with the qrserver prefix |
| Serializers.QrCodeRoundTrip | rooms/serializers.py:41 | reading the code back from a room's link gives that room code |
| Serializers.QrCodeOnlyLinks | rooms/serializers.py:41 | every text that carries a code is the link of that code |
| Serializers.QrCodeInjective | rooms/serializers.py:41 | distinct room codes give distinct links |
| GameScenario.ScenarioOutcome | rooms/consumers.py:238-334 | a two-player, two-second game publishes its two rankings, then results where the tie at average 5 is ranked in roster order |
| Sorting.Sort | rooms/consumers.py:287 | the stable sort standing in for `list.sort` returns a permutation of its input |
| Sorting.SortSorted | rooms/consumers.py:287 | the stable sort standing in for `list.sort` returns its input in ascending order |
| Sorting.SortStable | rooms/consumers.py:321 | the sort keeps the input order of every class of equal keys |
| Sorting.SortKeepsTiedOrder | rooms/consumers.py:321 | two output elements with equal keys come from input positions in the same order |

## Left out

- I/O is not modelled. This covers the channel layer (`group_add`, `group_discard`, `group_send`), WebSocket `accept`/`send`/`close`, and the broadcast handlers of rooms/consumers.py:106-164. A reply is an element of `replies`, a group broadcast is an element of `published`, and `closed` stands for `close()`.
- `disconnect` is not modelled. It only cancels the watchdog task and leaves the group.
- Timing and concurrency are not modelled. This covers `asyncio.sleep`, task cancellation and the `while True` of the watchdog. The watchdog is never started in rooms/consumers.py: `ping_check_task` stays `None`. So one wake-up is a method over a `now` parameter. The clock is a parameter in microseconds.
- Interleaving of the game loop with message handlers is not modelled. `GameStates.PlayTick` applies the heart rates that arrive during a second's sleep as one batch, in arrival order, before the tick. Heart rates handled while `start_game_loop` awaits a `group_send` are not modelled either. In particular, one handled during the send of the last `bpm_update` (rooms/consumers.py:290) lands in `bpm_history` before the results read it (rooms/consumers.py:306), so it can change the reported minimum and maximum. `RunGame` has no slot for such a batch.
- Concurrent `start_game_loop` calls for the same room are not modelled. `StartGame` shows the sequential effect: the newer session overwrites the older one.
- The ORM is not modelled. The `Player` table is the map of `PlayerDirectory`, and the lookup by `player_id` has no room filter, as in rooms/consumers.py. `is_player_playing` is never called, so it is not modelled.
- JSON decoding is not modelled. The message is given already decoded, as `Option<Message>`, and a non-object JSON value is outside the model. The key `is_ready` is modelled with its default of true. A JSON `null` or another falsy value sent as `is_ready` is not distinguished from `false`.
- Consumer.Connection.Receive: requires that a heart rate reaching a live session carries both `player_id` and `bpm`. Without them rooms/consumers.py stores a `None` key or value, and the next tick then fails on it.
- GameLoop.PlayTicks: requires every heart-rate id in the feed to be a roster id. For any other id rooms/consumers.py adds a `current_bpm` key without an `mae_history` list, and the next tick raises `KeyError`. The same requirement is on the `Tick`, `PlayTick` and `RunGame` methods.
- bpm is an integer. A float bpm sent by a client is not modelled.
- GameLoop.AverageMae: the mean is the exact rational mean, not a float. `round(avg_mae, 2)` is not modelled. Results are therefore ordered by the exact mean, so two players whose means differ only after the second decimal keep roster order in rooms/consumers.py but may not here.
- The mode's choice set (`Room.Mode`) is not part of this model. It is the parameter `modes`.
- DRF error messages other than the one `validate` raises are not modelled. Field errors are reported as the set of failing fields.
- Character handling is `str.isspace` over code points. Surrogates and Unicode normalisation are not modelled.
- The rest of rooms/serializers.py is not modelled, nor are the Django settings, routing and ASGI entry point. They are schema declarations and framework wiring.
- The game never creates a missing room entry from a heart rate. A heart rate for a room without a live session only binds the connection.
- A roster player who never sends a heart rate is reported with average 0, not 999. The player is seeded at the target, so every tick records a diff of 0 (`SilentPlayerScoresZero`). The 999 "no data" value appears only when the game had no tick (`AverageOverTicks`).
