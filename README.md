# pinggame server and grid world, in Dafny

pinggame is a small multiplayer grid game. The server keeps a 30 × 22 world with walls and a list of players. Each player is a one-character moniker on a cell. Clients join with `Hello(moniker)`, then send `ReqMove(direction)` requests. The server broadcasts every change (`AddPlayer`, `RemovePlayer`, `UpdMove`) to the connected clients. Two bots, `'0'` and `'1'`, wander the grid whenever a client is connected.

This project models two parts of the program and proves properties of them:

- **`game.dfy` (module `Game`)** models the world of `src/game.rs`.
  - `GameState` is a class. Its `essence` holds the `(Coord2D, Moniker)` entry list and the seed, and `walls` is the wall grid drawn from the seed.
  - Its methods put, remove, find and move monikers in place.
  - `WallIter` is a class whose `Next` walks the wall grid in row-major order.
  - The invariant `Valid()` says that every entry is on the grid, that no two entries share a cell, and that the walls are the ones the seed determines.
- **`server.dfy` (module `Server`)** models the reactor of `src/server.rs`.
  - The class `Reactor` owns the clients, the newcomers, the bots, and two queues: control messages (`ServerCtrlMsg`) and game updates.
  - Its methods are the handlers, the bot tick, the broadcast, the control-message pass and one pass of the main loop, in the order `server_enter` runs them.
  - Its invariant `Inv()` says that:
    - the listener's token belongs to nobody;
    - no socket is both a client and a newcomer;
    - every player name occurs once;
    - the players are exactly the bots and the clients.
- **`common.dfy` (module `Common`)** holds the message enums of `src/common.rs` and `MOVE_PERIOD`.
- **`wrappers.dfy`** holds `Option`.

Sockets, clocks and random draws are parameters:
- What a read delivers is an `Incoming` value: the decoded messages, then whether the read ended cleanly or broke.
- Which sends fail is given as a set. Every message the server sends is appended to `Reactor.sent`.
- Time is a millisecond count `now`.
- The cells `random_free_spot` would draw are a sequence `draws`.
- The seeded wall generator is a function `WallDraws` from a seed to its k-th weighted coin.

## Model

| member | source | states |
|---|---|---|
| Game.MoveWith | src/game.rs:227-235 | One step in `dir` changes exactly one coordinate by exactly one, with Up decreasing y; the requires rules out u16 wrap-around, the validity the source comment assumes |
| Game.WallGrid | src/game.rs:50-66 | HEIGHT rows of WIDTH bits each, bit (x, y) being the coin drawn at ordinal y*WIDTH+x of the seed's generator, so the walls depend on the seed alone |
| Game.GameState.FromEssence | src/game.rs:50-66 | Keeps the essence and fills the wall rows by nested loops, ending with exactly the seed's grid; the game is valid exactly when the essence's entries are placed validly |
| Game.GameState.IsWallAt | src/game.rs:164-168 | The wall bit of an on-grid cell is the seed's coin at the cell's row-major ordinal |
| Game.GameState.ContainsMoniker | src/game.rs:72-74 | True exactly when some entry carries the moniker |
| Game.Position | src/game.rs:109-125 | The first-match search: a found index holds the value and no earlier index does; None exactly when the value is absent |
| Game.GameState.IndexOfMoniker | src/game.rs:118-125 | The loop returns the first entry carrying the moniker, or None, as Position on the names |
| Game.GameState.IndexOfMonikerByCoord | src/game.rs:109-116 | The loop returns the first entry on the cell, or None, as Position on the coordinates |
| Game.GameState.CanMoveAt | src/game.rs:145-162 | True exactly when the neighbour in `dir` lies inside [0,WIDTH)×[0,HEIGHT), is not a wall and is held by no entry; so a granted step never wraps a u16 |
| Game.GameState.TryRemoveMoniker | src/game.rs:94-99 | Succeeds exactly when the moniker is present, and then removes exactly its first entry; otherwise nothing changes; validity is kept |
| Game.GameState.TryPutMoniker | src/game.rs:101-107 | Succeeds exactly when no entry holds the cell, and then appends exactly (coord, m), checking neither the name nor walls; validity is kept exactly when the cell is on the grid |
| Game.GameState.MoveMonikerInDir | src/game.rs:127-143 | Succeeds exactly when the moniker is present and can_move_at allows the step; then only its first entry moves, one step in `dir`; otherwise nothing changes; names, order and validity are kept |
| Game.Stepped | src/game.rs:135-139 | An allowed step keeps every entry on the grid and on its own cell and keeps the names; only the first entry of `m` changes, and it changes cell |
| Game.SteppedOneCell | src/game.rs:135-139 | The moved entry keeps its name `m` and lands exactly one cell away in `dir` |
| Game.RemovalKeepsPlacement | src/game.rs:94-99 | Removing one entry keeps all entries on the grid and on distinct cells |
| Game.RelocationKeepsPlacement | src/game.rs:135-139 | Moving one entry to a free on-grid cell keeps the placement invariant and every name |
| Game.FirstUnheld | src/game.rs:83-91 | Where the rejection loop stops: the first draw no entry holds; None exactly when every draw is held |
| Game.GameState.FirstFreeDraw | src/game.rs:83-91 | The draw loop returns the first drawn cell that index_of_moniker_by_coord finds empty |
| Game.GameState.RandomFreeSpot | src/game.rs:76-92 | Corrected guard: None exactly when the grid is full, that is, exactly when every cell is held; otherwise the first free draw, which is on the grid and held by no entry but may be a wall |
| Game.GameState.RandomFreeSpotAsWritten | src/game.rs:76-92 | As written: None exactly when half the entry count reaches WIDTH*HEIGHT; any Some is on the grid, unheld, and the first free draw |
| Game.AsWrittenGuardNeverFires | src/game.rs:77-80 | On a valid game the as-written guard never returns None |
| Game.FullGridSpinsForever | src/game.rs:77-91 | A valid game with every cell held passes the as-written guard, yet no draw is ever free, so the loop never returns |
| Game.PlacementBounded | src/game.rs:101-107 | A valid entry list holds at most WIDTH*HEIGHT entries |
| Game.FreeCellExists | src/game.rs:83-91 | With fewer entries than cells, some on-grid cell is free, so a fair draw sequence reaches one |
| Game.FullGridHasNoFreeCell | src/game.rs:76-92 | A valid list with WIDTH*HEIGHT entries holds every cell |
| Game.WallsFromStep | src/game.rs:203-207 | One step of the walk yields the cell when its bit is set, then the rest of the walk |
| Game.WallsFromMembers | src/game.rs:192-209 | The walk from ordinal k yields exactly the on-grid cells at or past k whose wall bit is set |
| Game.WallsFromIncreasing | src/game.rs:192-209 | The walk is strictly increasing in row-major order, so each wall comes once |
| Game.ScanWalls | src/game.rs:195-208 | The loop of next: stops just past the first set cell at or after the cursor, which heads the rest of the walk, or reaches the end of the rows when none is left |
| Game.GameState.IterWalls | src/game.rs:173-178 | wall_iter starts a walk over this game's walls at (0,0) with nothing yielded |
| Game.WallIter.constructor | src/game.rs:173-178 | A new walk at (0,0) whose remaining walk is the whole wall list |
| Game.WallIter.Next | src/game.rs:192-209 | Yields the head of the remaining walk and advances past it, or None at the end; what has been yielded plus what remains is always the full row-major wall list, and at None every wall has been yielded |
| Server.Elapsed | src/server.rs:253 | Instant::elapsed in milliseconds: the time since `since`, and zero for a moment not yet reached |
| Server.NextFreeToken | src/server.rs:296-306 | The least token numbered 1 or more that neither a client nor a newcomer holds, so never the listener's Token(0) nor a live token |
| Server.EnumerateKeys | src/server.rs:134 | A HashMap iteration order: every key exactly once |
| Server.Reactor.constructor | src/server.rs:58-64 | The start of server_enter: no connections, empty queues, a game from the seed and its wall generator holding exactly the two bots, and the invariant |
| Server.InitBots | src/server.rs:160-173 | Places bots '0' and '1', in that order, stamped with `now`; the entry list becomes Placed: each bot appended on the first of its draws that no entry holds at that moment; the game stays valid and gains exactly those names |
| Server.PlaceBot | src/server.rs:165-170 | One bot of init_bots: it is appended on the first of its draws that no entry holds, so the names gain exactly it; the game stays valid and the bot is stamped with `now` |
| Server.PlacedStep | src/server.rs:162-171 | Placing one more bot is one more first-free placement on what the bots before it left |
| Server.NewGame | src/server.rs:61-62 | The game server_enter starts from: drawn from the seed and holding exactly the two bots, valid |
| Server.Reactor.Accept | src/server.rs:71-89 | A new connection becomes a newcomer under a token that is not the listener's and that neither a client nor a newcomer holds; the invariant is kept |
| Server.NewcomerVerdict | src/server.rs:277-293 | Only a newcomer's first message counts; it queues an upgrade exactly when it is a Hello; at most two control messages, all for this token |
| Server.Reactor.HandleNewcomerIncoming | src/server.rs:277-293 | The read loop queues exactly the first message's intent, then a SocketDead drop if the read broke |
| Server.ClientVerdict | src/server.rs:263-272 | A read queues nothing exactly when it holds no Hello and did not break; otherwise it queues one drop of this client |
| Server.FirstLegalMove | src/server.rs:251-262 | The first move request before any Hello that the game allows; a refused request changes nothing, so the next request is tried on the same game |
| Server.Reactor.ServeMove | src/server.rs:252-262 | A request is served exactly when at least MOVE_PERIOD has passed and the game allows the move; a served request moves the player, stamps the client and queues UpdMove; any other request changes nothing |
| Server.Reactor.ReadRequests | src/server.rs:248-273 | Serves requests in order until a Hello, which it reports exactly when one occurs; the state changes only by the first allowed move, and only when the client is not rate-limited |
| Server.Reactor.HandleClientIncoming | src/server.rs:242-274 | At most one move per read: the first allowed request when MOVE_PERIOD has passed, or none; the game, client stamp and updates change accordingly; the queued control message is ClientVerdict; the invariant and client set are kept |
| Server.Reactor.MoveBot | src/server.rs:179-188 | A bot moves exactly when more than the bot period has passed and the game allows its drawn direction; a move restamps the bot and queues UpdMove; otherwise nothing changes |
| Server.BotMovesStep | src/server.rs:183-186 | One more bot adds its UpdMove to the tick's updates exactly when it moved |
| Server.TickStep | src/server.rs:179-188 | The tick over the first i+1 bots is the tick over the first i, then bot i's turn on the entries they left: a due bot the game lets step moves, is restamped and queues UpdMove; otherwise nothing changes |
| Server.TickKeepsBotNames | src/server.rs:179-188 | A tick keeps every bot's name, in order |
| Server.Tick | src/server.rs:175-189 | The tick over the bots in order, each on the game the earlier bots left: the entries stay on distinct cells with the same names; each bot is unchanged or, being due, restamped with `now`; at most one update per bot |
| Server.TickIdle | src/server.rs:179-180 | When no bot is due, the tick changes no entry and no bot and queues nothing |
| Server.TickUpdates | src/server.rs:183-186 | The tick queues one UpdMove, with the drawn direction, for each bot it restamped, in bot order, and none for the others |
| Server.Reactor.MoveBots | src/server.rs:179-188 | The loop over the bots, each on the game the bots before it left, ends with exactly the entries, bots and updates of Tick; the game stays valid |
| Server.Reactor.GameTick | src/server.rs:175-189 | The game's entries, the bots and the queued updates become exactly those of Tick: a due bot whose drawn direction the game allows steps, is restamped and queues UpdMove; the invariant is kept |
| Server.RoundMembers | src/server.rs:133-149 | A client receives an update exactly when it is visited and is not the player an AddPlayer announces |
| Server.FanOut | src/server.rs:132-150 | The inner loop sends the update to each addressee in visiting order and queues a SocketDead drop for each failed send, without stopping |
| Server.Casualties | src/server.rs:138-147 | Every drop a broadcast queues is a DropClientWithErr with ErrorSocketDead |
| Server.RoundDropsMembers | src/server.rs:138-147 | Within one update's fan-out, a client is dropped exactly when it was sent the update and the send failed |
| Server.CasualtiesMembers | src/server.rs:129-152 | A broadcast drops a client exactly when some update meant for it failed to reach it |
| Server.Reactor.BroadcastOutgoingUpdates | src/server.rs:125-153 | Drains the update queue; the sends and queued drops are exactly those of each update's fan-out, update by update |
| Server.DeliveriesMembers | src/server.rs:125-153 | A broadcast sends update u to client t exactly when u was queued and t is not the player an AddPlayer u announces |
| Server.ProjectRound | src/server.rs:133-149 | In one fan-out, a client listed once receives exactly one copy of the update if it is an addressee, else none |
| Server.DeliveriesInOrder | src/server.rs:125-153 | Each client receives exactly the queued updates meant for it, in queue order, one copy each |
| Server.NamesRemove | src/server.rs:209 | Removing a player whose name occurs once removes just that name |
| Server.Reactor.DropNewcomer | src/server.rs:199-204 | Forgets the newcomer and sends it the error; a token that is not a newcomer changes nothing |
| Server.Reactor.DropClient | src/server.rs:205-213 | Removes a known client, sends it the error, removes exactly the first entry carrying its name (all other entries keep their order) and queues RemovePlayer; an unknown token changes nothing, so repeated drops announce once; the invariant is kept |
| Server.Reactor.Upgrade | src/server.rs:214-236 | Corrected arm: panics when the token is not a newcomer or a free name finds no free cell; a taken name gets ErrorTakenMoniker and changes nothing else; otherwise the player is put on the first free draw and Welcome is sent. It becomes a client with an AddPlayer queued if the Welcome goes through, and is taken out again if it does not. The invariant is kept |
| Server.Reactor.UpgradeAsWritten | src/server.rs:214-236 | As written: when the Welcome send fails, the player stays in the game with no client or bot behind it, so the invariant breaks; in every other case it holds |
| Server.Reactor.DoServerControl | src/server.rs:192-239 | With the corrected UpgradeClient arm (Upgrade): applies the queue in order and empties it unless it panics; every upgraded or dropped newcomer is gone, every dropped client is gone, and connections only move from newcomer to client; the invariant is kept and only AddPlayer/RemovePlayer updates are added |
| Server.Reactor.Pass | src/server.rs:65-121 | With the corrected UpgradeClient arm: one loop pass keeps the invariant; with no client connected the bots do not move; a pass that does not panic leaves the control queue empty and only join/leave announcements queued; sends are only appended |

## Left out

- Transport: Middleman framing, serde, PackedMessage, poll registration, `set_nodelay`, and the sleep and timeout of polling. A read is its decoded messages plus how it ended. A send is an entry in `sent`; its outcome is a parameter.
- Only the server's own view of a connection is kept: `newcomers` is the set of their tokens, and a client record is its moniker and last move time.
- The clock: `Instant` is a millisecond count `now`, and each handler sees one `now`.
- Randomness: the XorShift wall generator is the parameter `WallDraws`. The cells `random_free_spot` draws from `thread_rng` are a sequence `draws`. The bots' directions (DIR_CHOICES) are a parameter `dirs`. `new_random` and the seed generator are not part of this model.
- `BOT_MOVE_PERIOD` is not defined in src/server.rs or src/common.rs, so it is the parameter `botMovePeriod`.
- src/server.rs calls `contains_player`, `try_add_player` and `try_remove_player`, which src/game.rs does not define. The model calls `contains_moniker`, `try_put_moniker` and `try_remove_moniker` in their place.
- `get_essence`, `MonikerIter` and `new_random_seed` only hand out or draw data and are not modelled.
- src/client.rs, src/main.rs and the graveyard are not part of this model.
- Panics in the reactor are the result `halted`: an event for an unknown token, and in UpgradeClient a token that is no newcomer or a grid with no free cell. The listener's accept error and the results of deregister and reregister are not modelled.
- A full grid at join could be answered with an error. In the code, random_free_spot's guard never fires on a valid game, so on a full grid its search never returns (first finding below). Upgrade and InitBots call the corrected RandomFreeSpot. With it, a full grid at join reaches the `expect("GAME TOO FULL")` after it, and the model treats that as the panic `halted`.
- Server.Reactor.DoServerControl and Server.Reactor.Pass keep the invariant only with the corrected UpgradeClient arm. Server.Reactor.UpgradeAsWritten shows how the arm as written breaks it (second finding below).
- Server.Reactor.HandleClientIncoming: requires `tok in clients`, and Server.Reactor.HandleNewcomerIncoming requires `tok in newcomers`. Both stand in for the `expect` calls of the source, and `Pass` only calls them in those cases.
- Game.MoveWith: requires that the step does not wrap a u16, the validity the source assumes. The source only calls it after can_move_at allows the step.
- Game.WallIter.Next: requires the cursor to be before the last row's end. Calling next again after None indexes past the last row, which is a panic in the source.
- Game.GameState.RandomFreeSpotAsWritten: requires the draws to hold a free cell whenever the guard lets the search start. The real loop does not terminate otherwise (see Game.FullGridSpinsForever).
- Game.GameState.RandomFreeSpot: requires `Covers(draws)`, that is, every cell eventually comes up. Only the draws up to the first free cell are used.
- Server.InitBots: requires room for both bots. The source's `expect` and `panic!` there cannot fire on the empty game it is called on.
- Server.Reactor.DoServerControl: states what happens to tokens, the invariant and the update queue, not each message's full effect. Those effects are stated by DropNewcomer, DropClient and Upgrade, which it calls message by message.
- Server.Reactor.Pass: states the invariant and what the pass guarantees about the queues and the bots, not the full new state. The full state is stated by the handlers it calls.
- The loops of WallIter::next and broadcast_outgoing_updates run on a cursor or on collected outputs, which are then written back to the object.
- HashMap iteration order is a parameter `order` that lists each client once (Server.EnumerateKeys produces one).

## Findings

| source | as written | input that shows it | evidently intended | confidence | as-written member | corrected member |
|---|---|---|---|---|---|---|
| src/game.rs:77-91 | `random_free_spot` gives up only when `monikers.len()/2 >= WIDTH*HEIGHT` | a valid game with all 660 cells held: 660/2 = 330 < 660, so the loop starts, and no draw is ever free, so it spins forever | give up when `monikers.len() >= WIDTH*HEIGHT`, that is, when no cell is free | not executed | Game.GameState.RandomFreeSpotAsWritten, Game.FullGridSpinsForever | Game.GameState.RandomFreeSpot |
| src/server.rs:219-233 | UpgradeClient adds the player before sending Welcome and does not take it out when the send fails | a newcomer "a" whose Welcome send fails: "a" stays on the grid with no client and no bot, so the name and its cell are taken for good | take the player out again when the Welcome cannot be sent | not executed | Server.Reactor.UpgradeAsWritten | Server.Reactor.Upgrade |
